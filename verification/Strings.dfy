/** Whitespace trimming and de-duplication, shared by the models. */
module Strings {

  /** The characters for which Python's str.isspace holds. */
  predicate PySpace(c: char) { GoSpace(c) || 28 <= c as int <= 31 }

  /** The characters for which Go's unicode.IsSpace holds. */
  predicate GoSpace(c: char) {
    var k := c as int;
    || 9 <= k <= 13 || k == 32 || k == 0x85 || k == 0xA0 || k == 0x1680
    || 0x2000 <= k <= 0x200A || k == 0x2028 || k == 0x2029 || k == 0x202F || k == 0x205F || k == 0x3000
  }

  function LeftStrip(s: string, space: char -> bool): (r: string)
    ensures r == "" || !space(r[0])
    ensures s != "" && !space(s[0]) ==> r == s
  {
    if s != "" && space(s[0]) then LeftStrip(s[1..], space) else s
  }

  function RightStrip(s: string, space: char -> bool): (r: string)
    ensures r == "" || !space(r[|r| - 1])
    ensures r <= s && (s != "" && !space(s[|s| - 1]) ==> r == s)
  {
    if s != "" && space(s[|s| - 1]) then RightStrip(s[..|s| - 1], space) else s
  }

  function Strip(s: string, space: char -> bool): string { RightStrip(LeftStrip(s, space), space) }

  /** Python's str.strip. */
  function PyStrip(s: string): string { Strip(s, PySpace) }

  /** Go's strings.TrimSpace. */
  function Trim(s: string): string { Strip(s, GoSpace) }

  lemma StripTwice(s: string, space: char -> bool)
    ensures Strip(Strip(s, space), space) == Strip(s, space)
  {
    var left := LeftStrip(s, space);
    var r := RightStrip(left, space);
    if r != "" { assert r[0] == left[0]; }
  }

  /** The spaces, one by one: Unicode's, and for Python the four information separators. */
  lemma SpacesAre(c: char)
    ensures GoSpace(c) <==>
              c as int in {0x9, 0xA, 0xB, 0xC, 0xD, 0x20, 0x85, 0xA0, 0x1680, 0x2000, 0x2001, 0x2002, 0x2003, 0x2004,
                           0x2005, 0x2006, 0x2007, 0x2008, 0x2009, 0x200A, 0x2028, 0x2029, 0x202F, 0x205F, 0x3000}
    ensures PySpace(c) <==> GoSpace(c) || c as int in {0x1C, 0x1D, 0x1E, 0x1F}
  {
  }

  ghost predicate AllSpace(s: string, space: char -> bool) { forall i :: 0 <= i < |s| ==> space(s[i]) }

  lemma {:induction false} LeftStripIs(s: string, space: char -> bool) returns (before: string)
    ensures s == before + LeftStrip(s, space) && AllSpace(before, space)
  {
    before := "";
    if s != "" && space(s[0]) {
      var rest := LeftStripIs(s[1..], space);
      before := [s[0]] + rest;
    }
  }

  lemma {:induction false} RightStripIs(s: string, space: char -> bool) returns (after: string)
    ensures s == RightStrip(s, space) + after && AllSpace(after, space)
  {
    after := "";
    if s != "" && space(s[|s| - 1]) {
      var rest := RightStripIs(s[..|s| - 1], space);
      after := rest + [s[|s| - 1]];
    }
  }

  /** Stripping takes spaces from both ends, and stops at what is not one. */
  lemma StripIs(s: string, space: char -> bool) returns (before: string, after: string)
    ensures s == before + Strip(s, space) + after && AllSpace(before, space) && AllSpace(after, space)
    ensures var r := Strip(s, space); r == "" || (!space(r[0]) && !space(r[|r| - 1]))
  {
    before := LeftStripIs(s, space);
    after := RightStripIs(LeftStrip(s, space), space);
    var r := Strip(s, space);
    if r != "" { assert r[0] == LeftStrip(s, space)[0]; }
  }

  // ---------- de-duplication ----------

  /** The non-blank values, each at its first appearance. */
  function Dedup(values: seq<string>): seq<string> {
    if values == [] then []
    else Add(Dedup(values[..|values| - 1]), values[|values| - 1])
  }

  function Add(seen: seq<string>, value: string): seq<string> {
    if value == "" || value in seen then seen else seen + [value]
  }

  function TrimEach(values: seq<string>): (r: seq<string>)
    ensures |r| == |values| && forall i :: 0 <= i < |r| ==> r[i] == Trim(values[i])
  {
    seq(|values|, i requires 0 <= i < |values| => Trim(values[i]))
  }

  /** The trimmed, non-blank values in order of first appearance. */
  function Unique(values: seq<string>): seq<string> { Dedup(TrimEach(values)) }

  ghost predicate NoDuplicates(s: seq<string>) {
    forall i, j :: 0 <= i < j < |s| ==> s[i] != s[j]
  }

  /** The loop over a set of values seen. */
  method UniqueStrings(values: seq<string>) returns (out: seq<string>)
    ensures out == Unique(values)
  {
    var seen := {};
    out := [];
    ghost var trimmed := TrimEach(values);
    for i := 0 to |values|
      invariant out == Dedup(trimmed[..i]) && forall v :: v in seen <==> v in out
    {
      assert trimmed[..i + 1][..i] == trimmed[..i];
      var value := Trim(values[i]);
      if value == "" || value in seen { continue; }
      seen := seen + {value};
      out := out + [value];
    }
    assert trimmed[..|values|] == trimmed;
  }

  lemma {:induction false} DedupMembers(values: seq<string>, v: string)
    ensures v in Dedup(values) <==> v != "" && v in values
  {
    if values != [] {
      DedupMembers(values[..|values| - 1], v);
      assert values == values[..|values| - 1] + [values[|values| - 1]];
    }
  }

  lemma {:induction false} DedupNoDuplicates(values: seq<string>)
    ensures NoDuplicates(Dedup(values))
  {
    if values != [] { DedupNoDuplicates(values[..|values| - 1]); }
  }

  lemma {:induction false} DedupFixed(values: seq<string>)
    requires NoDuplicates(values) && "" !in values
    ensures Dedup(values) == values
  {
    if values != [] {
      var front := values[..|values| - 1];
      assert values == front + [values[|values| - 1]];
      DedupFixed(front);
    }
  }

  /** De-duplicating a prefix first makes no difference: lists can be merged one by one. */
  lemma {:induction false} DedupMerge(a: seq<string>, b: seq<string>)
    ensures Dedup(Dedup(a) + b) == Dedup(a + b)
  {
    if b == [] {
      DedupNoDuplicates(a);
      DedupMembers(a, "");
      DedupFixed(Dedup(a));
      assert a + b == a && Dedup(a) + b == Dedup(a);
    } else {
      var front := b[..|b| - 1];
      DedupMerge(a, front);
      DedupLast(a + front, b[|b| - 1], a + b);
      DedupLast(Dedup(a) + front, b[|b| - 1], Dedup(a) + b);
    }
  }

  lemma DedupLast(front: seq<string>, last: string, all: seq<string>)
    requires all == front + [last]
    ensures Dedup(all) == Add(Dedup(front), last)
  {
    assert all[..|all| - 1] == front;
  }

  lemma TrimEachConcat(a: seq<string>, b: seq<string>)
    ensures TrimEach(a + b) == TrimEach(a) + TrimEach(b)
  {
  }

  lemma TrimEachTwice(values: seq<string>, u: seq<string>)
    requires forall v :: v in u ==> v in TrimEach(values)
    ensures TrimEach(u) == u
  {
    forall i | 0 <= i < |u| ensures Trim(u[i]) == u[i] {
      assert u[i] in TrimEach(values);
      var j :| 0 <= j < |values| && TrimEach(values)[j] == u[i];
      StripTwice(values[j], GoSpace);
    }
  }

  /** Values that come out of Unique are not blank and distinct, and are exactly the trimmed
      non-blank values. */
  lemma UniqueIsClean(values: seq<string>)
    ensures NoDuplicates(Unique(values)) && "" !in Unique(values)
    ensures forall v :: v in Unique(values) <==> v != "" && v in TrimEach(values)
  {
    DedupNoDuplicates(TrimEach(values));
    DedupMembers(TrimEach(values), "");
    forall v ensures v in Unique(values) <==> v != "" && v in TrimEach(values) {
      DedupMembers(TrimEach(values), v);
    }
  }

  lemma UniqueTwice(values: seq<string>)
    ensures TrimEach(Unique(values)) == Unique(values)
    ensures Unique(Unique(values)) == Unique(values)
  {
    UniqueIsClean(values);
    TrimEachTwice(values, Unique(values));
    DedupFixed(Unique(values));
  }

  lemma UniqueMerge(a: seq<string>, b: seq<string>)
    ensures Unique(Unique(a) + b) == Unique(a + b)
  {
    UniqueTwice(a);
    TrimEachConcat(a, b);
    TrimEachConcat(Unique(a), b);
    DedupMerge(TrimEach(a), TrimEach(b));
  }
}
