/** The package's global switch: three menu commands set, clear or flip whether
    the editor emulation is on, and each raises one event that every text view
    listens to. */
module VSNvimPackage {

  /** The two static events of `VSNvimPackage`. */
  datatype PackageEvent = Enabled | Disabled

  /** The event that announces the switch being at `on`. */
  function EventFor(on: bool): (e: PackageEvent)
    ensures (e == Enabled) == on
  {
    if on then Enabled else Disabled
  }

  /** The switch and the events raised after `ToggledEnabled` runs on `on`. */
  function Toggle(on: bool): (r: (bool, PackageEvent))
    ensures r.0 == !on && r.1 == EventFor(!on)
  {
    var on' := !on;
    (on', if on' then Enabled else Disabled)
  }

  /** Two toggles in a row restore the switch and raise one event of each kind,
      the first one announcing the flipped state. */
  lemma TwoTogglesRestore(on: bool)
    ensures var (on1, e1) := Toggle(on);
            var (on2, e2) := Toggle(on1);
            on2 == on && e1 != e2 && multiset{e1, e2} == multiset{Enabled, Disabled} &&
            e1 == EventFor(!on)
  {
    var (on1, e1) := Toggle(on);
    var (on2, e2) := Toggle(on1);
    if on {
      assert e1 == Disabled && e2 == Enabled;
    } else {
      assert e1 == Enabled && e2 == Disabled;
    }
  }

  /** `VSNvimPackage`: the switch `IsEnabled` and the events raised so far. */
  class Package {
    var isEnabled: bool
    var raised: seq<PackageEvent>

    constructor (isEnabled: bool)
      ensures this.isEnabled == isEnabled && raised == []
    {
      this.isEnabled := isEnabled;
      raised := [];
    }

    /** The "enable" menu command. */
    method SetEnabled()
      modifies this
      ensures isEnabled && raised == old(raised) + [Enabled]
    {
      isEnabled := true;
      raised := raised + [Enabled];
    }

    /** The "disable" menu command. */
    method SetDisabled()
      modifies this
      ensures !isEnabled && raised == old(raised) + [Disabled]
    {
      isEnabled := false;
      raised := raised + [Disabled];
    }

    /** The "toggle" menu command. */
    method ToggledEnabled()
      modifies this
      ensures isEnabled == !old(isEnabled)
      ensures raised == old(raised) + [EventFor(isEnabled)]
      ensures (isEnabled, raised[|raised| - 1]) == Toggle(old(isEnabled))
    {
      isEnabled := !isEnabled;
      if isEnabled {
        raised := raised + [Enabled];
      } else {
        raised := raised + [Disabled];
      }
    }
  }
}
