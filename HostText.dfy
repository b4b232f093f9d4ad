/** Text units shared by the engine and the host.

    The engine works on bytes (UTF-8), the host on UTF-16 characters. The model
    abstracts the conversion between them as the bijection between a byte and
    the character with the same code (U+0000 to U+00FF), which keeps length. */
module HostText {

  /** One byte of engine text (`char_u`). */
  newtype Byte = b: int | 0 <= b < 0x100

  /** The host's text: a snapshot of the text buffer, or a string passed to it. */
  type Text = seq<char>

  /** The host line terminator (`Environment::NewLine`), modelled as one character. */
  const LF: char := '\n'

  /** The byte that ends a C string. */
  const NUL: Byte := 0

  /** Host text all of whose characters stand for one byte each. */
  predicate IsByteText(s: Text) {
    forall i :: 0 <= i < |s| ==> s[i] as int < 0x100
  }

  /** `Encoding::UTF8->GetString`: engine bytes to host text. */
  function Decode(bs: seq<Byte>): (s: Text)
    ensures |s| == |bs| && IsByteText(s)
    ensures forall i :: 0 <= i < |bs| ==> s[i] as int == bs[i] as int
  {
    seq(|bs|, i requires 0 <= i < |bs| => bs[i] as int as char)
  }

  /** `Encoding::UTF8->GetBytes`: host text to engine bytes. */
  function Encode(s: Text): (bs: seq<Byte>)
    requires IsByteText(s)
    ensures |bs| == |s|
    ensures forall i :: 0 <= i < |s| ==> bs[i] as int == s[i] as int
  {
    seq(|s|, i requires 0 <= i < |s| => s[i] as int as Byte)
  }

  lemma EncodeDecode(bs: seq<Byte>)
    ensures Encode(Decode(bs)) == bs
  {
    var r := Encode(Decode(bs));
    assert forall i :: 0 <= i < |bs| ==> r[i] as int == bs[i] as int;
  }

  lemma DecodeEncode(s: Text)
    requires IsByteText(s)
    ensures Decode(Encode(s)) == s
  {
    var r := Decode(Encode(s));
    assert forall i :: 0 <= i < |s| ==> r[i] as int == s[i] as int;
  }

  /** Byte text is closed under taking pieces and putting them together. */
  lemma ByteTextSplice(a: Text, b: Text, c: Text)
    requires IsByteText(a) && IsByteText(b) && IsByteText(c)
    ensures IsByteText(a + b + c)
  {
    var r := a + b + c;
    forall i | 0 <= i < |r| ensures r[i] as int < 0x100 {
      if i < |a| { assert r[i] == a[i]; }
      else if i < |a| + |b| { assert r[i] == b[i - |a|]; }
      else { assert r[i] == c[i - |a| - |b|]; }
    }
  }

  /** `strlen`: the number of bytes before the first NUL of a C string. */
  function Strlen(buf: seq<Byte>): (n: nat)
    requires NUL in buf
    ensures n < |buf| && buf[n] == NUL
    ensures forall i :: 0 <= i < n ==> buf[i] != NUL
  {
    if buf[0] == NUL then 0 else 1 + Strlen(buf[1..])
  }
}
