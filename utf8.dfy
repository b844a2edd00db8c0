/** Strict UTF-8 decoding, as Python's `bytes.decode()` does it: the
    well-formed byte sequences of Table 3-7 of the Unicode Standard (no
    overlong forms, no surrogates, nothing above U+10FFFF); anything else is
    a `UnicodeDecodeError`, modelled as `None`. */
module Utf8 {
  import opened Wrappers

  predicate IsCont(b: byte) {
    0x80 <= b <= 0xBF
  }

  /** The length of the well-formed sequence `bs` starts with, 0 if it starts
      with an ill-formed one. */
  function SeqLength(bs: seq<byte>): (n: nat)
    ensures n <= 4 && n <= |bs|
    ensures bs != [] && bs[0] < 0x80 ==> n == 1
  {
    if bs == [] then 0
    else
      var b0 := bs[0];
      if b0 < 0x80 then 1
      else if 0xC2 <= b0 <= 0xDF then
        if |bs| >= 2 && IsCont(bs[1]) then 2 else 0
      else if 0xE0 <= b0 <= 0xEF then
        var lo := if b0 == 0xE0 then 0xA0 else 0x80;
        var hi := if b0 == 0xED then 0x9F else 0xBF;
        if |bs| >= 3 && lo <= bs[1] <= hi && IsCont(bs[2]) then 3 else 0
      else if 0xF0 <= b0 <= 0xF4 then
        var lo := if b0 == 0xF0 then 0x90 else 0x80;
        var hi := if b0 == 0xF4 then 0x8F else 0xBF;
        if |bs| >= 4 && lo <= bs[1] <= hi && IsCont(bs[2]) && IsCont(bs[3]) then 4 else 0
      else 0
  }

  /** The code point of the well-formed sequence `bs` starts with, of length `n`. */
  function CodePoint(bs: seq<byte>, n: nat): (c: char)
    requires n == SeqLength(bs) && n > 0
  {
    if n == 1 then
      bs[0] as char
    else if n == 2 then
      var cp := (bs[0] as int - 0xC0) * 64 + (bs[1] as int - 0x80);
      assert 0x80 <= cp <= 0x7FF;
      cp as char
    else if n == 3 then
      var cp := (bs[0] as int - 0xE0) * 4096 + (bs[1] as int - 0x80) * 64 + (bs[2] as int - 0x80);
      assert bs[0] == 0xED ==> cp <= 0xD7FF;
      assert bs[0] != 0xED ==> (cp < 0xD000 || 0xE000 <= cp);
      assert cp <= 0xFFFF;
      cp as char
    else
      var cp := (bs[0] as int - 0xF0) * 262144 + (bs[1] as int - 0x80) * 4096 + (bs[2] as int - 0x80) * 64 + (bs[3] as int - 0x80);
      assert 0x10000 <= cp;
      assert bs[0] == 0xF4 ==> cp <= 0x10FFFF;
      assert bs[0] < 0xF4 ==> cp <= 0xFFFFF;
      cp as char
  }

  function Decode(bs: seq<byte>): Option<string>
    decreases |bs|
  {
    if bs == [] then Some([])
    else
      var n := SeqLength(bs);
      if n == 0 then None
      else match Decode(bs[n..])
        case None => None
        case Some(rest) => Some([CodePoint(bs, n)] + rest)
  }

  /** A byte below 0x80 on its own is the character with that code. */
  lemma DecodeAscii(b: byte)
    requires b < 0x80
    ensures Decode([b]) == Some([b as char])
  {
    var bs: seq<byte> := [b];
    assert SeqLength(bs) == 1;
    assert bs[1..] == [] && bs[..1] == bs;
    assert Decode(bs[1..]) == Some([]);
    assert CodePoint(bs, 1) == b as char;
    assert [b as char] + [] == [b as char];
  }

  /** The first sequence of a byte string is found the same way when more bytes follow. */
  lemma SeqLengthPrefix(a: seq<byte>, b: seq<byte>)
    requires SeqLength(a) > 0
    ensures SeqLength(a + b) == SeqLength(a)
  {
    assert forall k :: 0 <= k < |a| ==> (a + b)[k] == a[k];
  }

  /** ... and denotes the same character. */
  lemma CodePointPrefix(a: seq<byte>, b: seq<byte>)
    requires SeqLength(a) > 0
    ensures SeqLength(a + b) == SeqLength(a)
    ensures CodePoint(a + b, SeqLength(a)) == CodePoint(a, SeqLength(a))
  {
    SeqLengthPrefix(a, b);
    var n := SeqLength(a);
    assert forall k :: 0 <= k < n ==> (a + b)[k] == a[k];
  }

  /** Decoding a byte string whose first sequence is well formed: that
      sequence's character, then the rest's text. */
  lemma DecodeStepSome(bs: seq<byte>, n: nat)
    requires n == SeqLength(bs) && n > 0 && Decode(bs[n..]).Some?
    ensures Decode(bs) == Some([CodePoint(bs, n)] + Decode(bs[n..]).value)
  {
  }

  /** ... and ill-formed when the rest is. */
  lemma DecodeStepNone(bs: seq<byte>, n: nat)
    requires n == SeqLength(bs) && n > 0 && Decode(bs[n..]).None?
    ensures Decode(bs).None?
  {
  }

  lemma ConcatAssoc(p: string, q: string, r: string)
    ensures p + (q + r) == (p + q) + r
  {
  }

  /** Well-formed text followed by well-formed text decodes to both texts. */
  lemma {:induction false} DecodeAppendSome(a: seq<byte>, b: seq<byte>)
    requires Decode(a).Some? && Decode(b).Some?
    ensures Decode(a + b) == Some(Decode(a).value + Decode(b).value)
    decreases |a|
  {
    if a == [] {
      assert a + b == b;
      assert Decode(a) == Some([]);
      var y := Decode(b).value;
      assert [] + y == y;
    } else {
      var n := SeqLength(a);
      assert n > 0;
      var ab := a + b;
      CodePointPrefix(a, b);
      assert ab[n..] == a[n..] + b;
      DecodeAppendSome(a[n..], b);
      var c, x, y := CodePoint(a, n), Decode(a[n..]).value, Decode(b).value;
      DecodeStepSome(a, n);
      DecodeStepSome(ab, n);
      ConcatAssoc([c], x, y);
    }
  }

  /** Well-formed text followed by ill-formed bytes is ill-formed. */
  lemma {:induction false} DecodeAppendNone(a: seq<byte>, b: seq<byte>)
    requires Decode(a).Some? && Decode(b).None?
    ensures Decode(a + b).None?
    decreases |a|
  {
    if a == [] {
      assert a + b == b;
    } else {
      var n := SeqLength(a);
      assert n > 0;
      var ab := a + b;
      CodePointPrefix(a, b);
      assert ab[n..] == a[n..] + b;
      DecodeAppendNone(a[n..], b);
      DecodeStepNone(ab, n);
    }
  }

  /** Decoding distributes over concatenation when the first part is well formed. */
  lemma DecodeAppend(a: seq<byte>, b: seq<byte>)
    requires Decode(a).Some?
    ensures Decode(a + b) == match Decode(b)
      case None => None
      case Some(y) => Some(Decode(a).value + y)
  {
    if Decode(b).Some? {
      DecodeAppendSome(a, b);
    } else {
      DecodeAppendNone(a, b);
    }
  }

  /** A zero byte decodes to the NUL character and nothing else does: splitting
      the bytes at a zero byte is splitting the text at '\0'. */
  lemma {:induction false} DecodeNul(a: seq<byte>)
    requires Decode(a).Some?
    ensures ('\0' in Decode(a).value) <==> (0 in a)
    decreases |a|
  {
    if a != [] {
      var n := SeqLength(a);
      DecodeNul(a[n..]);
      var c := CodePoint(a, n);
      assert c == '\0' <==> a[0] == 0;
      assert (0 in a) <==> (a[0] == 0 || 0 in a[1..n] || 0 in a[n..]) by {
        assert a == [a[0]] + a[1..n] + a[n..];
      }
      assert 0 !in a[1..n];
    }
  }
}
