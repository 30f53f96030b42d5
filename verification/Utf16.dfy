/** UTF-16 as section 2.1 of RFC 2781 defines it: one code unit for a character below 0x10000, otherwise a high and a
    low surrogate. A `char` here is a Unicode scalar value. */
module Utf16 {
  import opened Common

  type Unit = nat

  predicate High(u: Unit) { 0xD800 <= u < 0xDC00 }

  predicate Low(u: Unit) { 0xDC00 <= u < 0xE000 }

  function Units(c: char): (r: seq<Unit>)
    ensures 1 <= |r| <= 2 && !Low(r[0]) && (|r| == 2 <==> High(r[0])) && (|r| == 2 ==> Low(r[1]))
  {
    var n := c as int;
    if n < 0x10000 then [n] else [0xD800 + (n - 0x10000) / 0x400, 0xDC00 + (n - 0x10000) % 0x400]
  }

  function Encode(s: string): seq<Unit> {
    if s == [] then [] else Units(s[0]) + Encode(s[1..])
  }

  /** A strict decoder: `None` for an unpaired surrogate. */
  function Decode(u: seq<Unit>): Option<string> {
    if u == [] then Some([])
    else if High(u[0]) then
      if |u| < 2 || !Low(u[1]) then None else
      var rest := Decode(u[2..]);
      if rest.None? then None else
      Some([(0x10000 + (u[0] - 0xD800) * 0x400 + (u[1] - 0xDC00)) as char] + rest.value)
    else if Low(u[0]) || u[0] >= 0x10000 then None
    else
      var rest := Decode(u[1..]);
      if rest.None? then None else Some([u[0] as char] + rest.value)
  }

  lemma {:induction false} EncodeConcat(a: string, b: string)
    ensures Encode(a + b) == Encode(a) + Encode(b)
  {
    if a == [] {
      assert a + b == b;
    } else {
      assert (a + b)[1..] == a[1..] + b;
      EncodeConcat(a[1..], b);
    }
  }

  /** Decoding gives back what was encoded. */
  lemma {:induction false} DecodeEncode(s: string)
    ensures Decode(Encode(s)) == Some(s)
  {
    hide Units, Decode;
    DecodeFront();
    if s != [] {
      DecodeEncode(s[1..]);
      DecodeUnits(s[0], Encode(s[1..]));
      assert s == [s[0]] + s[1..];
    }
  }

  lemma DecodeFront()
    ensures Decode([]) == Some([])
  {
  }

  lemma DecodeUnits(c: char, rest: seq<Unit>)
    ensures Decode(Units(c) + rest) == if Decode(rest).None? then None else Some([c] + Decode(rest).value)
  {
    hide Units;
    var u := Units(c) + rest;
    UnitsBack(c);
    assert u[|Units(c)|..] == rest;
    assert u[0] == Units(c)[0] && (|Units(c)| == 2 ==> u[1] == Units(c)[1]);
  }

  lemma UnitsBack(c: char)
    ensures var u := Units(c); if |u| == 2 then 0x10000 + (u[0] - 0xD800) * 0x400 + (u[1] - 0xDC00) == c as int
                              else u[0] == c as int < 0x10000
  {
  }

  /** Whatever decodes is the encoding of the result. */
  lemma {:induction false} EncodeDecode(u: seq<Unit>)
    requires Decode(u).Some?
    ensures Encode(Decode(u).value) == u
  {
    if u != [] {
      var n := if High(u[0]) then 2 else 1;
      EncodeDecode(u[n..]);
      assert Decode(u).value[1..] == Decode(u[n..]).value;
      assert u == u[..n] + u[n..];
      assert Units(Decode(u).value[0]) == u[..n];
    }
  }

  lemma EncodeInjective(a: string, b: string)
    requires Encode(a) == Encode(b)
    ensures a == b
  {
    DecodeEncode(a);
    DecodeEncode(b);
  }

  lemma {:induction false} EncodeEmpty(s: string)
    ensures Encode(s) == [] <==> s == []
    ensures |s| <= |Encode(s)|
  {
    if s != [] {
      EncodeEmpty(s[1..]);
    }
  }

  /** The encoding of a prefix is a prefix of the encoding. */
  lemma EncodeSlice(s: string, i: nat, k: nat)
    requires i <= k <= |s|
    ensures |Encode(s[..i])| <= |Encode(s[..k])| <= |Encode(s)|
    ensures Encode(s)[|Encode(s[..i])|..|Encode(s[..k])|] == Encode(s[i..k])
  {
    assert s[..k] == s[..i] + s[i..k] && s == s[..k] + s[k..];
    EncodeConcat(s[..i], s[i..k]);
    EncodeConcat(s[..k], s[k..]);
  }

  /** Where no low surrogate stands a character starts, or the text ends. */
  lemma {:induction false} BoundaryUnit(s: string, k: nat) returns (i: nat)
    requires k <= |Encode(s)| && (k < |Encode(s)| ==> !Low(Encode(s)[k]))
    ensures i <= |s| && k == |Encode(s[..i])|
    decreases |s|
  {
    if k == 0 {
      i := 0;
    } else {
      EncodeEmpty(s);
      var head := Units(s[0]);
      assert Encode(s)[0..|head|] == head;
      var j := BoundaryUnit(s[1..], k - |head|);
      i := j + 1;
      assert s[..i] == [s[0]] + s[1..][..j];
      EncodeConcat([s[0]], s[1..][..j]);
      assert [s[0]][1..] == [];
    }
  }

  lemma StartUnit(s: string, i: nat)
    requires i < |s|
    ensures |Encode(s[..i])| < |Encode(s)| && !Low(Encode(s)[|Encode(s[..i])|])
  {
    hide Units;
    assert s == s[..i] + s[i..];
    EncodeConcat(s[..i], s[i..]);
    EncodeEnds(s[i..]);
  }

  /** The encoding is self-synchronising: a position is inside a character exactly when it is at a low surrogate. */
  lemma InsideIsLow(s: string, k: nat)
    requires k <= |Encode(s)|
    ensures (exists i :: 0 <= i <= |s| && k == |Encode(s[..i])|) <==> (k < |Encode(s)| ==> !Low(Encode(s)[k]))
  {
    if k < |Encode(s)| ==> !Low(Encode(s)[k]) {
      var i := BoundaryUnit(s, k);
    }
    if i :| 0 <= i <= |s| && k == |Encode(s[..i])| {
      if i < |s| {
        StartUnit(s, i);
      } else {
        assert s[..i] == s;
      }
    }
  }

  /** An encoding neither starts with a low surrogate nor ends with a high one. */
  lemma {:induction false} EncodeEnds(s: string)
    requires s != []
    ensures |Encode(s)| > 0 && !Low(Encode(s)[0]) && !High(Encode(s)[|Encode(s)| - 1])
  {
    EncodeEmpty(s);
    if |s| > 1 {
      EncodeEnds(s[1..]);
    } else {
      assert s[1..] == [];
    }
  }

  /** After a unit that is no high surrogate the next character starts. */
  lemma {:induction false} AfterUnit(s: string, k: nat)
    requires 0 < k <= |Encode(s)| && !High(Encode(s)[k - 1])
    ensures k < |Encode(s)| ==> !Low(Encode(s)[k])
    decreases |s|
  {
    EncodeEmpty(s);
    var head := Units(s[0]);
    assert Encode(s) == head + Encode(s[1..]);
    if k > |head| {
      AfterUnit(s[1..], k - |head|);
    } else if k == |head| && s[1..] != [] {
      EncodeEnds(s[1..]);
    }
  }

  /** A part of an encoding that starts like a character and ends like one decodes. */
  lemma PartDecodes(s: string, k: nat, m: nat)
    requires k <= m <= |Encode(s)|
    requires k < |Encode(s)| ==> !Low(Encode(s)[k])
    requires m < |Encode(s)| ==> !Low(Encode(s)[m])
    ensures Decode(Encode(s)[k..m]).Some?
  {
    var i := BoundaryUnit(s, k);
    var j := BoundaryUnit(s, m);
    if i > j {
      EncodeSlice(s, j, i);
      NothingDecodes(Encode(s), k, m);
    } else {
      EncodeSlice(s, i, j);
      DecodeEncode(s[i..j]);
    }
  }

  lemma NothingDecodes(u: seq<Unit>, k: nat, m: nat)
    requires k == m <= |u|
    ensures Decode(u[k..m]).Some?
  {
    assert u[k..m] == [];
  }
}
