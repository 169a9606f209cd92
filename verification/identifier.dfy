/**
 * Canonical device keys and the first-match lookup of an optic reading for a
 * CPE value (`normalizeCpeName` and `findLightMatch`, which the map view
 * repeats verbatim).
 */
module Identifier {
  import opened Wrappers
  import opened Text
  import opened Json
  import Seqs

  /** A flattened optic reading: request context merged with the device's
      own fields. */
  type Entry = Object

  /** `normalizeCpeName` on a string: blank stays blank; otherwise the
      lower-cased, trimmed text up to the first `_`, or the whole lower-cased
      text when that prefix is empty. */
  function NormalizeCpeName(s: string): (r: string)
    ensures s == "" ==> r == ""
    ensures s != "" ==> StartsWith(Trim(Lower(s)), r)
    ensures s != "" && Free(Trim(Lower(s)), '_') ==> r == Trim(Lower(s))
    ensures |r| < |Trim(Lower(s))| ==> r != "" && Free(r, '_') && Trim(Lower(s))[|r|] == '_'
    ensures s != "" && !Free(Trim(Lower(s)), '_') && Trim(Lower(s))[0] != '_' ==> |r| < |Trim(Lower(s))|
    ensures s != "" && |Trim(Lower(s))| > 0 && Trim(Lower(s))[0] == '_' ==> r == Trim(Lower(s))
    ensures r == "" <==> Trim(Lower(s)) == ""
  {
    if s == "" then ""
    else
      var lower := Trim(Lower(s));
      var head := FirstSegment(lower, '_');
      FirstSegmentIsSplitHead(lower, '_');
      if head != "" then head else lower
  }

  /** Lower-casing keeps white space and `_` where they are. */
  lemma LowerKeeps(a: string)
    ensures |Lower(a)| == |a|
    ensures forall k :: 0 <= k < |a| ==> (IsSpace(Lower(a)[k]) <==> IsSpace(a[k])) && (Lower(a)[k] == '_' <==> a[k] == '_')
  {
  }

  lemma LowerUnderscore(b: string)
    ensures Lower("_" + b) == "_" + Lower(b)
  {
    var x, y := Lower("_" + b), "_" + Lower(b);
    assert |x| == |y|;
    forall k | 0 <= k < |x| ensures x[k] == y[k] {
      if k > 0 {
        assert ("_" + b)[k] == b[k - 1];
      }
    }
  }

  lemma LowerAtUnderscore(a: string, b: string)
    ensures Lower(a + "_" + b) == Lower(a) + ("_" + Lower(b))
  {
    assert a + "_" + b == a + ("_" + b);
    LowerAppend(a, "_" + b);
    LowerUnderscore(b);
  }

  /** The trimmed, lower-cased text of `a_b`, for a trimmed `_`-free `a`,
      starts with the lower-cased `a` and an `_`. */
  lemma TrimmedLowerAt(a: string, b: string)
    requires a != "" && IsTrimmed(a) && Free(a, '_')
    ensures |Trim(Lower(a + "_" + b))| > |Lower(a)|
    ensures Trim(Lower(a + "_" + b))[..|Lower(a)|] == Lower(a)
    ensures Trim(Lower(a + "_" + b))[|Lower(a)|] == '_'
  {
    var A := Lower(a);
    var X := Lower(a + "_" + b);
    assert !IsSpace(X[0]) && X[|A|] == '_' && X[..|A|] == A by {
      LowerKeeps(a);
      LowerAtUnderscore(a, b);
      assert X[0] == A[0];
    }
    assert TrimStart(X) == X;
    var L := TrimEnd(X);
    assert |L| > |A| && L == X[..|L|];
  }

  /** Two `_`-free prefixes of a text that are both followed by `_` are
      the same prefix. */
  lemma CutAt(text: string, r: string, a: string)
    requires |r| < |text| && text[..|r|] == r && Free(r, '_') && text[|r|] == '_'
    requires |a| < |text| && text[..|a|] == a && Free(a, '_') && text[|a|] == '_'
    ensures r == a
  {
  }

  /** Whatever follows the first `_` is ignored: a trimmed, `_`-free name
      and that name with any suffix after an `_` have the same key, its
      lower-cased text. */
  lemma SuffixIgnored(a: string, b: string)
    requires a != "" && IsTrimmed(a) && Free(a, '_')
    ensures NormalizeCpeName(a) == Lower(a)
    ensures NormalizeCpeName(a + "_" + b) == Lower(a)
  {
    var A := Lower(a);
    assert IsTrimmed(A) && Free(A, '_') && A != "" by {
      LowerKeeps(a);
    }
    assert NormalizeCpeName(a) == A by {
      TrimOfTrimmed(A);
    }
    var L := Trim(Lower(a + "_" + b));
    assert |L| > |A| && L[..|A|] == A && L[|A|] == '_' by {
      TrimmedLowerAt(a, b);
    }
    assert !Free(L, '_') && L[0] != '_' by {
      assert L[0] == L[..|A|][0] == A[0];
    }
    CutAt(L, NormalizeCpeName(a + "_" + b), A);
  }

  /** `normalizeCpeName("ABC_1")` is `"abc"`. */
  lemma KeyExample()
    ensures NormalizeCpeName("ABC" + "_" + "1") == "abc"
  {
    assert Lower("ABC") == "abc" by {
      assert Lower("ABC")[0] == 'a' && Lower("ABC")[1] == 'b' && Lower("ABC")[2] == 'c';
    }
    SuffixIgnored("ABC", "1");
  }

  /** The key of a CPE value read from an account (`acct.value`); a missing or
      empty value has the empty key, which matches nothing. */
  function CpeKey(value: Option<string>): string {
    if value.Some? then NormalizeCpeName(value.value) else ""
  }

  /** `normalizeCpeName(entry.name)`: a missing or falsy name has the empty
      key, and a name is first rendered with `String(...)`. */
  function NameKey(name: Option<Json>): string {
    if !TruthyOpt(name) then ""
    else
      match ToText(name.value)
      case Some(s) => NormalizeCpeName(s)
      case None => ""
  }

  function EntryKey(e: Entry): string {
    NameKey(if "name" in e then Some(e["name"]) else None)
  }

  /** The reading `e` is a match for the non-empty key `key`. */
  predicate Matches(e: Entry, key: string) {
    key != "" && EntryKey(e) == key
  }

  /** `findLightMatch(entries, cpeValue)`: the first reading, in sequence
      order, whose key equals the CPE value's key; nothing for an empty key. */
  function FindLightMatch(entries: seq<Entry>, cpe: Option<string>): (r: Option<Entry>)
    ensures CpeKey(cpe) == "" ==> r.None?
    ensures r.Some? ==> CpeKey(cpe) != "" && EntryKey(r.value) == CpeKey(cpe)
    ensures r.Some? ==> exists i :: 0 <= i < |entries| && entries[i] == r.value
                          && forall j :: 0 <= j < i ==> !Matches(entries[j], CpeKey(cpe))
    ensures r.None? ==> forall i :: 0 <= i < |entries| ==> !Matches(entries[i], CpeKey(cpe))
  {
    var key := CpeKey(cpe);
    if key == "" then None
    else
      match Seqs.FirstIndex(entries, e => Matches(e, key), 0)
      case Some(i) => Some(entries[i])
      case None => None
  }

  /** Readings appended after the last one cannot change a match that was
      already found: the earliest reading wins. */
  lemma FirstMatchStable(entries: seq<Entry>, more: seq<Entry>, cpe: Option<string>)
    requires FindLightMatch(entries, cpe).Some?
    ensures FindLightMatch(entries + more, cpe) == FindLightMatch(entries, cpe)
  {
    var key := CpeKey(cpe);
    var p := e => Matches(e, key);
    var i := Seqs.FirstIndex(entries, p, 0).value;
    Seqs.FirstIndexPrefix(entries, more, p, 0, i);
    assert (entries + more)[i] == entries[i];
  }
}
