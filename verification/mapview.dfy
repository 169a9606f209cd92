/**
 * The map view's own logic: the fallback colour ladder it uses when no
 * classifier is handed to it, the popup's grouping of accounts by account
 * id, the de-duplicated CPE list with its five-item cap, and the FDA/FDH
 * display text. Its copies of `normalizeCpeName` and `findLightMatch` are
 * the definitions in `Identifier`.
 */
module MapView {
  import opened Wrappers
  import opened Text
  import opened Identifier
  import opened Classifier
  import Seqs

  // ---------------------------------------------------------------------------
  // fallback colour ladder

  /** Low-light threshold of the map view's own ladder, in dBm. */
  const MapViewLowLight: real := -22.9

  /** The ladder with the threshold as a parameter: suspended, then an
      incomplete drop, then readings. It has no inactive and no
      completed-without-status rule. */
  function FallbackColorAt(p: Point, entries: seq<Entry>, threshold: real): (c: Color)
    ensures c != Black && c != Blue
    ensures c == Purple <==> AnySuspended(p.accounts)
    ensures c == Gray <==> !AnySuspended(p.accounts) && !p.dropCompleted
    ensures c == Red <==> !AnySuspended(p.accounts) && p.dropCompleted
                          && |entries| > 0 && !AnyReading(p.accounts, entries)
    ensures c == Yellow <==> !AnySuspended(p.accounts) && p.dropCompleted
                             && |entries| > 0 && AnyLow(p.accounts, entries, threshold)
    ensures c == Green <==> !AnySuspended(p.accounts) && p.dropCompleted
                            && (|entries| == 0 || (AnyReading(p.accounts, entries) && !AnyLow(p.accounts, entries, threshold)))
  {
    ScanLightSpec(p.accounts, a => HasReading(a, entries), a => LowReading(a, entries, threshold));
    var flags := LightFlags(p, entries, threshold);
    if AnySuspended(p.accounts) then Purple
    else if !p.dropCompleted then Gray
    else if |entries| > 0 then
      (if !flags.0 then Red else if flags.1 then Yellow else Green)
    else Green
  }

  function FallbackColor(p: Point, entries: seq<Entry>): Color {
    FallbackColorAt(p, entries, MapViewLowLight)
  }

  /** At the same threshold the two ladders agree exactly on the addresses
      the main classifier does not paint black or blue. */
  lemma FallbackAgreesWithClassify(p: Point, entries: seq<Entry>, threshold: real)
    ensures FallbackColorAt(p, entries, threshold) == Classify(p, entries, threshold)
            <==> Classify(p, entries, threshold) !in {Black, Blue}
  {
  }

  /** An address the main view paints yellow is yellow in the fallback too:
      the fallback's threshold is the higher one. */
  lemma AppYellowIsFallbackYellow(p: Point, entries: seq<Entry>)
    requires Classify(p, entries, AppLowLight) == Yellow
    ensures FallbackColor(p, entries) == Yellow
  {
    LowerThresholdFewerLow(p, entries, AppLowLight, MapViewLowLight);
    FallbackAgreesWithClassify(p, entries, MapViewLowLight);
  }

  // ---------------------------------------------------------------------------
  // accounts grouped by account id

  /** `acct.account_id || "unknown"`. */
  datatype GroupId = Id(n: int) | Unknown

  function GroupKey(a: Account): GroupId {
    if a.accountId.Some? && a.accountId.value != 0 then Id(a.accountId.value) else Unknown
  }

  function InGroup(k: GroupId): Account -> bool {
    a => GroupKey(a) == k
  }

  /** The popup's `reduce`: one group per key that occurs, holding that key's
      accounts in their original order. */
  method GroupAccounts(accts: seq<Account>) returns (groups: map<GroupId, seq<Account>>)
    ensures forall k :: k in groups <==> exists i :: 0 <= i < |accts| && GroupKey(accts[i]) == k
    ensures forall k :: k in groups ==> groups[k] == Seqs.Filter(accts, InGroup(k))
  {
    groups := map[];
    for i := 0 to |accts|
      invariant forall k :: k in groups <==> exists j :: 0 <= j < i && GroupKey(accts[j]) == k
      invariant forall k :: k in groups ==> groups[k] == Seqs.Filter(accts[..i], InGroup(k))
    {
      var a := accts[i];
      var key := GroupKey(a);
      if key !in groups {
        groups := groups[key := []];
      }
      groups := groups[key := groups[key] + [a]];
      assert accts[..i + 1] == accts[..i] + [a];
      forall k | k in groups
        ensures groups[k] == Seqs.Filter(accts[..i + 1], InGroup(k))
      {
        Seqs.FilterSnoc(accts[..i], a, InGroup(k));
        if k != key {
          assert exists j :: 0 <= j < i && GroupKey(accts[j]) == k;
        } else if exists j :: 0 <= j < i && GroupKey(accts[j]) == k {
          var j :| 0 <= j < i && GroupKey(accts[j]) == k;
          assert accts[..i][j] == accts[j];
        } else {
          assert forall j :: 0 <= j < i ==> !InGroup(k)(accts[..i][j]);
          Seqs.FilterNone(accts[..i], InGroup(k));
        }
      }
    }
    assert accts[..|accts|] == accts;
  }

  /** Every account lands in exactly one group: the one of its own key. */
  lemma GroupMembership(accts: seq<Account>, a: Account, k: GroupId)
    ensures a in Seqs.Filter(accts, InGroup(k)) <==> a in accts && GroupKey(a) == k
  {
    Seqs.FilterSpec(accts, InGroup(k));
  }

  /** Total size of the groups of the keys `ks`, taken in that order. */
  function SizeSum(accts: seq<Account>, ks: seq<GroupId>): nat {
    if |ks| == 0 then 0 else |Seqs.Filter(accts, InGroup(ks[0]))| + SizeSum(accts, ks[1..])
  }

  predicate Distinct<T(==)>(xs: seq<T>) {
    forall i, j :: 0 <= i < j < |xs| ==> xs[i] != xs[j]
  }

  /** The groups partition the accounts: listed in any order without
      repetition, their sizes add up to the number of accounts. */
  lemma {:induction false} GroupSizes(accts: seq<Account>, ks: seq<GroupId>)
    requires Distinct(ks)
    requires forall i :: 0 <= i < |accts| ==> GroupKey(accts[i]) in ks
    ensures SizeSum(accts, ks) == |accts|
  {
    if |accts| == 0 {
      SizeSumEmpty(ks);
    } else {
      GroupSizes(accts[1..], ks);
      SizeSumCons(accts, ks);
      HitsOnce(ks, GroupKey(accts[0]));
    }
  }

  lemma {:induction false} SizeSumEmpty(ks: seq<GroupId>)
    ensures SizeSum([], ks) == 0
  {
    if |ks| > 0 {
      SizeSumEmpty(ks[1..]);
    }
  }

  /** Number of keys in `ks` equal to `k`. */
  function Hits(ks: seq<GroupId>, k: GroupId): nat {
    if |ks| == 0 then 0 else (if ks[0] == k then 1 else 0) + Hits(ks[1..], k)
  }

  lemma {:induction false} SizeSumCons(accts: seq<Account>, ks: seq<GroupId>)
    requires |accts| > 0
    ensures SizeSum(accts, ks) == Hits(ks, GroupKey(accts[0])) + SizeSum(accts[1..], ks)
  {
    if |ks| > 0 {
      SizeSumCons(accts, ks[1..]);
    }
  }

  lemma {:induction false} HitsOnce(ks: seq<GroupId>, k: GroupId)
    requires Distinct(ks) && k in ks
    ensures Hits(ks, k) == 1
  {
    if ks[0] == k {
      HitsNone(ks[1..], k);
    } else {
      HitsOnce(ks[1..], k);
    }
  }

  lemma {:induction false} HitsNone(ks: seq<GroupId>, k: GroupId)
    requires k !in ks
    ensures Hits(ks, k) == 0
  {
    if |ks| > 0 {
      HitsNone(ks[1..], k);
    }
  }

  // ---------------------------------------------------------------------------
  // de-duplicated CPE list

  /** A field as a template literal prints it; the aggregation sends a
      missing field as `null`. */
  function FieldText(o: Option<string>): string {
    if o.Some? then o.value else "null"
  }

  /** `${item.inventory_model}|||${item.value}`. */
  function CpeItemKey(a: Account): string {
    FieldText(a.inventoryModel) + "|||" + FieldText(a.value)
  }

  // The de-duplication below is stated for any key function `key`; the
  // popup uses `CpeItemKey`.

  /** The keys of a list of items. */
  function KeySet<T>(xs: seq<T>, key: T -> string): set<string> {
    set k | 0 <= k < |xs| :: key(xs[k])
  }

  lemma KeySetSnoc<T>(xs: seq<T>, x: T, key: T -> string)
    ensures KeySet(xs + [x], key) == KeySet(xs, key) + {key(x)}
  {
    var ys := xs + [x];
    forall y | y in KeySet(xs, key) + {key(x)}
      ensures y in KeySet(ys, key)
    {
      if y == key(x) {
        assert key(ys[|xs|]) == y;
      } else {
        var k :| 0 <= k < |xs| && key(xs[k]) == y;
        assert key(ys[k]) == y;
      }
    }
  }

  /** Item `j` is the first with its key. */
  predicate FirstOfKey<T>(items: seq<T>, key: T -> string, j: nat)
    requires j < |items|
  {
    forall m :: 0 <= m < j ==> key(items[m]) != key(items[j])
  }

  /** Reference definition: the items among the first `n` that are the first
      of their key, in order. */
  function Firsts<T>(items: seq<T>, key: T -> string, n: nat): seq<T>
    requires n <= |items|
  {
    if n == 0 then []
    else Firsts(items, key, n - 1) + (if FirstOfKey(items, key, n - 1) then [items[n - 1]] else [])
  }

  lemma FirstOfKeyIffNew<T>(items: seq<T>, key: T -> string, j: nat)
    requires j < |items|
    ensures FirstOfKey(items, key, j) <==> key(items[j]) !in KeySet(items[..j], key)
    ensures KeySet(items[..j + 1], key) == KeySet(items[..j], key) + {key(items[j])}
  {
    assert items[..j + 1] == items[..j] + [items[j]];
    KeySetSnoc(items[..j], items[j], key);
    if key(items[j]) in KeySet(items[..j], key) {
      var m :| 0 <= m < j && key(items[..j][m]) == key(items[j]);
      assert items[..j][m] == items[m];
    }
  }

  /** The popup's loop: a `Set` of keys seen so far, and each item whose key
      is new appended. */
  method UniqueCpes(items: seq<Account>) returns (unique: seq<Account>)
    ensures unique == Firsts(items, CpeItemKey, |items|)
  {
    unique := [];
    var seen: set<string> := {};
    for i := 0 to |items|
      invariant unique == Firsts(items, CpeItemKey, i)
      invariant seen == KeySet(items[..i], CpeItemKey)
    {
      var key := CpeItemKey(items[i]);
      FirstOfKeyIffNew(items, CpeItemKey, i);
      if key !in seen {
        seen := seen + {key};
        unique := unique + [items[i]];
      }
    }
  }

  /** The kept items cover exactly the keys that occur. */
  lemma {:induction false} FirstsKeys<T>(items: seq<T>, key: T -> string, n: nat)
    requires n <= |items|
    ensures KeySet(Firsts(items, key, n), key) == KeySet(items[..n], key)
  {
    if n > 0 {
      FirstsKeys(items, key, n - 1);
      FirstOfKeyIffNew(items, key, n - 1);
      var prev := Firsts(items, key, n - 1);
      if FirstOfKey(items, key, n - 1) {
        assert Firsts(items, key, n) == prev + [items[n - 1]];
        KeySetSnoc(prev, items[n - 1], key);
      } else {
        assert Firsts(items, key, n) == prev;
      }
    }
  }

  /** No two kept items share a key. */
  lemma {:induction false} FirstsDistinct<T>(items: seq<T>, key: T -> string, n: nat)
    requires n <= |items|
    ensures forall i, j :: 0 <= i < j < |Firsts(items, key, n)| ==>
              key(Firsts(items, key, n)[i]) != key(Firsts(items, key, n)[j])
  {
    if n > 0 {
      FirstsDistinct(items, key, n - 1);
      FirstsKeys(items, key, n - 1);
      FirstOfKeyIffNew(items, key, n - 1);
      var prev := Firsts(items, key, n - 1);
      var cur := Firsts(items, key, n);
      if FirstOfKey(items, key, n - 1) {
        assert cur == prev + [items[n - 1]];
        forall i | 0 <= i < |prev|
          ensures key(cur[i]) != key(cur[|prev|])
        {
          assert cur[i] == prev[i];
          assert key(prev[i]) in KeySet(prev, key);
        }
      } else {
        assert cur == prev;
      }
    }
  }

  /** There are as many kept items as distinct keys. */
  lemma {:induction false} FirstsCount<T>(items: seq<T>, key: T -> string, n: nat)
    requires n <= |items|
    ensures |Firsts(items, key, n)| == |KeySet(items[..n], key)|
  {
    if n > 0 {
      FirstsCount(items, key, n - 1);
      FirstOfKeyIffNew(items, key, n - 1);
      var before := KeySet(items[..n - 1], key);
      if FirstOfKey(items, key, n - 1) {
        assert |before + {key(items[n - 1])}| == |before| + 1;
      } else {
        assert before + {key(items[n - 1])} == before;
      }
    }
  }

  /** `x` is the first item with its key among the first `n`. */
  ghost predicate FirstAmong<T>(items: seq<T>, key: T -> string, n: nat, x: T)
    requires n <= |items|
  {
    exists j :: 0 <= j < n && x == items[j] && FirstOfKey(items, key, j)
  }

  /** Each kept item is an item of the list and the first with its key. */
  lemma {:induction false} FirstsAreFirst<T>(items: seq<T>, key: T -> string, n: nat)
    requires n <= |items|
    ensures forall i :: 0 <= i < |Firsts(items, key, n)| ==> FirstAmong(items, key, n, Firsts(items, key, n)[i])
  {
    if n > 0 {
      FirstsAreFirst(items, key, n - 1);
      var prev := Firsts(items, key, n - 1);
      var cur := Firsts(items, key, n);
      forall i | 0 <= i < |cur|
        ensures FirstAmong(items, key, n, cur[i])
      {
        if i < |prev| {
          assert cur[i] == prev[i];
          assert FirstAmong(items, key, n - 1, prev[i]);
          var j :| 0 <= j < n - 1 && prev[i] == items[j] && FirstOfKey(items, key, j);
        } else {
          assert FirstOfKey(items, key, n - 1) && cur == prev + [items[n - 1]];
          assert cur[i] == items[n - 1];
        }
      }
    }
  }

  /** The CPE list of one group: at most five items, and a "+N more" line
      when there are more distinct CPEs than that. */
  datatype CpeList = CpeList(shown: seq<Account>, more: Option<nat>)

  /** The number of distinct CPEs, the size of the key `Set`. */
  function UniqueCount(items: seq<Account>): nat {
    |KeySet(items, CpeItemKey)|
  }

  function CpeListing(items: seq<Account>): (r: CpeList)
    ensures |r.shown| <= 5
    ensures r.shown <= Firsts(items, CpeItemKey, |items|)
    ensures r.more.Some? <==> UniqueCount(items) > 5
    ensures r.more.Some? ==> r.more.value == UniqueCount(items) - 5
    ensures |r.shown| + (if r.more.Some? then r.more.value else 0) == UniqueCount(items)
  {
    var unique := Firsts(items, CpeItemKey, |items|);
    FirstsCount(items, CpeItemKey, |items|);
    assert items[..|items|] == items;
    var u := UniqueCount(items);
    CpeList(if |unique| <= 5 then unique else unique[..5], if u > 5 then Some(u - 5) else None)
  }

  // ---------------------------------------------------------------------------
  // FDA/FDH display

  /** The popup's FDA/FDH line: the two parts, or the whole value as FDA. */
  datatype FdaFdhText = Parts(fda: string, fdh: string) | WholeFda(fda: string)

  /** Shown only for a truthy value. A value containing `|` shows its first
      two `|`-segments with the first `FDA:` and `FDH:` removed. */
  function FdaFdhDisplay(v: Option<string>): (r: Option<FdaFdhText>)
    ensures r.None? <==> v.None? || v.value == ""
    ensures r.Some? && r.value.WholeFda? ==> r.value.fda == v.value && Free(v.value, '|')
    ensures r.Some? && r.value.Parts? ==> !Free(v.value, '|')
  {
    if v.None? || v.value == "" then None
    else if Free(v.value, '|') then Some(WholeFda(v.value))
    else
      var s := v.value;
      Some(Parts(ReplaceFirst(FirstSegment(s, '|'), "FDA:", ""),
                 ReplaceFirst(SecondSegment(s, '|'), "FDH:", "")))
  }

  lemma {:induction false} FirstSegmentOfFree(a: string, sep: char, b: string)
    requires Free(a, sep)
    ensures FirstSegment(a + [sep] + b, sep) == a
  {
    if |a| > 0 {
      FirstSegmentOfFree(a[1..], sep, b);
      assert (a + [sep] + b)[1..] == a[1..] + [sep] + b;
    }
  }

  lemma {:induction false} FirstSegmentWhole(a: string, sep: char)
    requires Free(a, sep)
    ensures FirstSegment(a, sep) == a
  {
    if |a| > 0 {
      FirstSegmentWhole(a[1..], sep);
    }
  }

  /** Only the first two `|`-segments are shown, whatever follows the second
      separator: `a|b|c` shows `a` and `b`, each with its first `FDA:` or
      `FDH:` removed. */
  lemma DisplayFirstTwo(a: string, b: string, rest: string)
    requires Free(a, '|') && Free(b, '|') && (rest == "" || rest[0] == '|')
    ensures FdaFdhDisplay(Some(a + "|" + b + rest))
            == Some(Parts(ReplaceFirst(a, "FDA:", ""), ReplaceFirst(b, "FDH:", "")))
  {
    var s := a + "|" + b + rest;
    assert s == a + ['|'] + (b + rest);
    assert s[|a|] == '|';
    FirstSegmentOfFree(a, '|', b + rest);
    assert s[|a| + 1..] == b + rest;
    if rest == "" {
      assert b + rest == b;
      FirstSegmentWhole(b, '|');
    } else {
      assert b + rest == b + ['|'] + rest[1..];
      FirstSegmentOfFree(b, '|', rest[1..]);
    }
  }

  /** The three-segment example `a|b|c`. */
  lemma DisplayThreeSegments()
    ensures FdaFdhDisplay(Some("a|b|c")) == Some(Parts("a", "b"))
  {
    assert "a|b|c" == "a" + "|" + "b" + "|c";
    DisplayFirstTwo("a", "b", "|c");
    ReplaceFirstAbsent("a", "FDA:", "");
    ReplaceFirstAbsent("b", "FDH:", "");
  }

  /** Round trip: the stored form `FDA:<a>|FDH:<b>` is shown as `a` and `b`,
      for any parts without a `|`. */
  lemma DisplayRoundTrip(a: string, b: string)
    requires Free(a, '|') && Free(b, '|')
    ensures FdaFdhDisplay(Some("FDA:" + a + "|" + "FDH:" + b)) == Some(Parts(a, b))
  {
    var first := "FDA:" + a;
    var second := "FDH:" + b;
    var s := first + "|" + second;
    assert s == first + ['|'] + second;
    assert s[|first|] == '|';
    assert Free(first, '|');
    assert Free(second, '|');
    FirstSegmentOfFree(first, '|', second);
    assert s[|first| + 1..] == second;
    FirstSegmentWhole(second, '|');
    assert "FDA:" + a + "|" + "FDH:" + b == s;
    assert !Free(s, '|');
    assert SecondSegment(s, '|') == second;
    ReplaceFirstAtStart("FDA:", a);
    ReplaceFirstAtStart("FDH:", b);
  }
}
