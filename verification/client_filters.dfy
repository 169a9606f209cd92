/**
 * Browser-side filter inputs: FDA/FDH code normalisation, the OLT list per
 * city, the query parameters of the inventory request, the view filters
 * (ONT text, OLT text, colour) and the per-colour marker counts.
 */
module ClientFilters {
  import opened Wrappers
  import opened Text
  import opened Json
  import opened Identifier
  import opened Classifier
  import Seqs

  // ---------------------------------------------------------------------------
  // OLTs per city

  /** The OLT name prefix that belongs to a city, if the city has one. */
  function CityPrefix(city: string): Option<string> {
    if city == "Arlington" then Some("DFW2-")
    else if city == "McKinney" then Some("DFW3-")
    else if city == "Rockwall" then Some("DFW4-")
    else None
  }

  /** `allowedOltsByCity`: `olts` is `None` when the configuration's OLT list
      is not an array. The result keeps the input's order and, for a city
      with a prefix, exactly the OLTs carrying it. */
  function AllowedOltsByCity(city: string, olts: Option<seq<string>>): (r: seq<string>)
    ensures olts.None? ==> r == []
    ensures olts.Some? ==> Seqs.IsSubseq(r, olts.value)
    ensures olts.Some? && CityPrefix(city).None? ==> r == olts.value
    ensures olts.Some? && CityPrefix(city).Some? ==>
              forall o :: o in r <==> o in olts.value && StartsWith(o, CityPrefix(city).value)
    ensures olts.Some? && CityPrefix(city).Some? ==>
              forall o :: multiset(r)[o] == if StartsWith(o, CityPrefix(city).value) then multiset(olts.value)[o] else 0
  {
    if olts.None? then []
    else
      match CityPrefix(city)
      case None =>
        Seqs.FilterAll(olts.value, o => true);
        Seqs.FilterSpec(olts.value, o => true);
        olts.value
      case Some(prefix) =>
        Seqs.FilterSpec(olts.value, o => StartsWith(o, prefix));
        Seqs.FilterMultiset(olts.value, o => StartsWith(o, prefix));
        Seqs.Filter(olts.value, o => StartsWith(o, prefix))
  }

  // ---------------------------------------------------------------------------
  // FDA / FDH codes

  /** `/^\d{1,3}$/`. */
  predicate IsCode(t: string) {
    1 <= |t| <= 3 && AllDigits(t)
  }

  /** The canonical form `<tag>:` followed by three digits. */
  predicate Canonical(tag: string, r: string) {
    |r| == 7 && r[..4] == tag + ":" && AllDigits(r[4..])
  }

  /** The number a canonical code stands for. */
  function CodeNumber(r: string): nat
    requires |r| >= 4 && AllDigits(r[4..])
  {
    DigitsValue(r[4..])
  }

  /** `` `${tag}:${digits.padStart(3, "0")}` ``. */
  function Padded(tag: string, digits: string): string
    requires AllDigits(digits)
  {
    tag + ":" + PadStart3(digits)
  }

  /** A tag, a colon and the zero-padded digits of a code form a canonical
      code of the same value. */
  lemma CanonicalOfCode(tag: string, d: string)
    requires |tag| == 3 && IsCode(d)
    ensures Canonical(tag, Padded(tag, d))
    ensures CodeNumber(Padded(tag, d)) == DigitsValue(d)
  {
    var r := Padded(tag, d);
    assert r[..4] == tag + ":";
    assert r[4..] == PadStart3(d);
  }

  /** `/^FDA:(\d{1,3})$/i`. */
  predicate FdaPrefixed(t: string) {
    |t| >= 4 && Lower(t[..4]) == "fda:" && IsCode(t[4..])
  }

  /** `normalizeFda`. */
  function NormalizeFda(value: string): (r: string)
    ensures Trim(value) == "" ==> r == ""
    ensures IsCode(Trim(value)) ==> Canonical("FDA", r) && CodeNumber(r) == DigitsValue(Trim(value))
    ensures FdaPrefixed(Trim(value)) ==> Canonical("FDA", r) && CodeNumber(r) == DigitsValue(Trim(value)[4..])
    ensures !IsCode(Trim(value)) && !FdaPrefixed(Trim(value)) ==> r == Trim(value)
  {
    var t := Trim(value);
    if t == "" then ""
    else if IsCode(t) then CanonicalOfCode("FDA", t); Padded("FDA", t)
    else if FdaPrefixed(t) then CanonicalOfCode("FDA", t[4..]); Padded("FDA", t[4..])
    else t
  }

  /** What `/^FDH:?\s*(\d{1,3})$/i` captures, when it matches. */
  function FdhDigits(t: string): (r: Option<string>)
    ensures r.Some? ==> IsCode(r.value)
  {
    if |t| >= 3 && Lower(t[..3]) == "fdh" then
      var rest := t[3..];
      var afterColon := if |rest| > 0 && rest[0] == ':' then rest[1..] else rest;
      var digits := TrimStart(afterColon);
      if IsCode(digits) then Some(digits) else None
    else None
  }

  /** `normalizeFdh`. */
  function NormalizeFdh(value: string): (r: string)
    ensures Trim(value) == "" ==> r == ""
    ensures IsCode(Trim(value)) ==> Canonical("FDH", r) && CodeNumber(r) == DigitsValue(Trim(value))
    ensures !IsCode(Trim(value)) && FdhDigits(Trim(value)).Some? ==>
              Canonical("FDH", r) && CodeNumber(r) == DigitsValue(FdhDigits(Trim(value)).value)
    ensures !IsCode(Trim(value)) && FdhDigits(Trim(value)).None? ==> r == Trim(value)
  {
    var t := Trim(value);
    if t == "" then ""
    else if IsCode(t) then CanonicalOfCode("FDH", t); Padded("FDH", t)
    else if FdhDigits(t).Some? then
      var d := FdhDigits(t).value;
      CanonicalOfCode("FDH", d);
      Padded("FDH", d)
    else t
  }

  lemma CanonicalNoSpace(tag: string, r: string)
    requires Canonical(tag, r) && (tag == "FDA" || tag == "FDH")
    ensures forall k :: 0 <= k < |r| ==> !IsSpace(r[k])
  {
    forall k | 0 <= k < |r| ensures !IsSpace(r[k]) {
      if k >= 4 {
        assert r[k] == r[4..][k - 4];
      } else {
        assert r[k] == (tag + ":")[k];
      }
    }
  }

  /** A canonical code is recognised by the prefixed form and keeps its
      digits. */
  lemma CanonicalFda(r: string)
    requires Canonical("FDA", r)
    ensures Trim(r) == r && !IsCode(r) && FdaPrefixed(r)
  {
    CanonicalNoSpace("FDA", r);
    TrimNoSpace(r);
    assert r[..4] == "FDA:";
    assert Lower("FDA:") == "fda:";
  }

  lemma CanonicalFdh(r: string)
    requires Canonical("FDH", r)
    ensures Trim(r) == r && !IsCode(r) && FdhDigits(r) == Some(r[4..])
  {
    CanonicalNoSpace("FDH", r);
    TrimNoSpace(r);
    assert r[..3] == "FDH";
    assert Lower("FDH") == "fdh";
    assert r[3..] == [':'] + r[4..];
    assert r[4..] != [] && !IsSpace(r[4..][0]);
  }

  /** A canonical code normalises to itself. */
  lemma NormalizeFdaCanonical(r: string)
    requires Canonical("FDA", r)
    ensures NormalizeFda(r) == r
  {
    CanonicalFda(r);
    assert r == r[..4] + r[4..];
  }

  lemma NormalizeFdhCanonical(r: string)
    requires Canonical("FDH", r)
    ensures NormalizeFdh(r) == r
  {
    CanonicalFdh(r);
    assert r == r[..4] + r[4..];
  }

  /** `normalizeFda` is idempotent. */
  lemma NormalizeFdaIdempotent(value: string)
    ensures NormalizeFda(NormalizeFda(value)) == NormalizeFda(value)
  {
    var t := Trim(value);
    var r := NormalizeFda(value);
    if t == "" {
      assert Trim("") == "";
    } else if IsCode(t) || FdaPrefixed(t) {
      NormalizeFdaCanonical(r);
    } else {
      TrimIdempotent(value);
    }
  }

  /** `normalizeFdh` is idempotent. */
  lemma NormalizeFdhIdempotent(value: string)
    ensures NormalizeFdh(NormalizeFdh(value)) == NormalizeFdh(value)
  {
    var t := Trim(value);
    var r := NormalizeFdh(value);
    if t == "" {
      assert Trim("") == "";
    } else if IsCode(t) || FdhDigits(t).Some? {
      NormalizeFdhCanonical(r);
    } else {
      TrimIdempotent(value);
    }
  }

  // ---------------------------------------------------------------------------
  // query parameters of the inventory request

  /** The keys `buildUrl` writes, in the order it writes them. */
  datatype Key = City | Fda | Fdh | Drop | Status

  /** The key's name in the URL. */
  function Name(k: Key): string {
    match k
    case City => "city"
    case Fda => "fda"
    case Fdh => "fdh"
    case Drop => "drop"
    case Status => "status"
  }

  datatype QueryParam = QueryParam(key: Key, value: string)

  /** `searchParams.getAll(key)`: the values under `key`, in order. */
  function Values(ps: seq<QueryParam>, key: Key): seq<string> {
    if |ps| == 0 then [] else (if ps[0].key == key then [ps[0].value] else []) + Values(ps[1..], key)
  }

  lemma {:induction false} ValuesAppend(a: seq<QueryParam>, b: seq<QueryParam>, key: Key)
    ensures Values(a + b, key) == Values(a, key) + Values(b, key)
  {
    if |a| > 0 {
      ValuesAppend(a[1..], b, key);
      assert (a + b)[0] == a[0] && (a + b)[1..] == a[1..] + b;
    } else {
      assert a + b == b;
    }
  }

  /** The place of a key in the order `buildUrl` appends them. */
  function Rank(key: Key): nat {
    match key
    case City => 0
    case Fda => 1
    case Fdh => 2
    case Drop => 3
    case Status => 4
  }

  /** No parameter comes after one with a later key. */
  predicate KeysInOrder(ps: seq<QueryParam>) {
    forall i, j :: 0 <= i < j < |ps| ==> Rank(ps[i].key) <= Rank(ps[j].key)
  }

  predicate RanksAtMost(ps: seq<QueryParam>, n: nat) {
    forall k :: 0 <= k < |ps| ==> Rank(ps[k].key) <= n
  }

  /** Every value as one parameter under `key`. */
  function Tag(key: Key, vs: seq<string>): (r: seq<QueryParam>)
    ensures |r| == |vs|
    ensures forall k :: 0 <= k < |r| ==> r[k] == QueryParam(key, vs[k])
  {
    seq(|vs|, k requires 0 <= k < |vs| => QueryParam(key, vs[k]))
  }

  /** The values of a tagged list under its own key are the list; under any
      other key there are none. */
  lemma {:induction false} ValuesOfTag(key: Key, vs: seq<string>, other: Key)
    ensures Values(Tag(key, vs), other) == if key == other then vs else []
  {
    if |vs| > 0 {
      ValuesOfTag(key, vs[1..], other);
      assert Tag(key, vs)[1..] == Tag(key, vs[1..]);
    }
  }

  /** Appending a block of one key whose rank is at least every earlier
      one keeps the keys in order. */
  lemma AppendBlock(a: seq<QueryParam>, key: Key, vs: seq<string>)
    requires KeysInOrder(a) && RanksAtMost(a, Rank(key))
    ensures KeysInOrder(a + Tag(key, vs)) && RanksAtMost(a + Tag(key, vs), Rank(key))
  {
    var b := Tag(key, vs);
    var ab := a + b;
    forall i, j | 0 <= i < j < |ab| ensures Rank(ab[i].key) <= Rank(ab[j].key) {
      if j < |a| {
        assert ab[i] == a[i] && ab[j] == a[j];
      } else if i < |a| {
        assert ab[i] == a[i] && ab[j] == b[j - |a|];
      } else {
        assert ab[i] == b[i - |a|] && ab[j] == b[j - |a|];
      }
    }
    forall k | 0 <= k < |ab| ensures Rank(ab[k].key) <= Rank(key) {
      if k < |a| {
        assert ab[k] == a[k];
      } else {
        assert ab[k] == b[k - |a|];
      }
    }
  }

  predicate NonBlank(vs: seq<string>) {
    forall k :: 0 <= k < |vs| ==> vs[k] != ""
  }

  /** Tagging keeps non-blank values non-blank. */
  lemma AppendNonBlank(a: seq<QueryParam>, key: Key, vs: seq<string>)
    requires forall q :: q in a ==> q.value != ""
    requires NonBlank(vs)
    ensures forall q :: q in a + Tag(key, vs) ==> q.value != ""
  {
  }

  /** The values under `key` of a list with a tagged block appended. */
  lemma ValuesAppendTag(a: seq<QueryParam>, key: Key, vs: seq<string>, other: Key)
    ensures Values(a + Tag(key, vs), other) == Values(a, other) + (if key == other then vs else [])
  {
    ValuesAppend(a, Tag(key, vs), other);
    ValuesOfTag(key, vs, other);
  }

  lemma ValuesOfTags(c: seq<string>, a: seq<string>, h: seq<string>, d: seq<string>, s: seq<string>, key: Key)
    ensures Values(Tag(City, c) + Tag(Fda, a) + Tag(Fdh, h) + Tag(Drop, d) + Tag(Status, s), key)
         == match key
            case City => c
            case Fda => a
            case Fdh => h
            case Drop => d
            case Status => s
  {
    var r1 := Tag(City, c);
    var r2 := r1 + Tag(Fda, a);
    var r3 := r2 + Tag(Fdh, h);
    var r4 := r3 + Tag(Drop, d);
    assert [] + r1 == r1;
    ValuesAppendTag([], City, c, key);
    ValuesAppendTag(r1, Fda, a, key);
    ValuesAppendTag(r2, Fdh, h, key);
    ValuesAppendTag(r3, Drop, d, key);
    ValuesAppendTag(r4, Status, s, key);
  }

  /** The five tagged lists, in `buildUrl`'s key order. */
  function Assemble(c: seq<string>, a: seq<string>, h: seq<string>, d: seq<string>, s: seq<string>): (r: seq<QueryParam>)
    ensures KeysInOrder(r)
    ensures Values(r, City) == c && Values(r, Fda) == a && Values(r, Fdh) == h
    ensures Values(r, Drop) == d && Values(r, Status) == s
    ensures NonBlank(c) && NonBlank(a) && NonBlank(h) && NonBlank(d) && NonBlank(s) ==>
              forall q :: q in r ==> q.value != ""
  {
    var r1 := Tag(City, c);
    var r2 := r1 + Tag(Fda, a);
    var r3 := r2 + Tag(Fdh, h);
    var r4 := r3 + Tag(Drop, d);
    var r := r4 + Tag(Status, s);
    assert KeysInOrder(r) by {
      assert [] + r1 == r1;
      AppendBlock([], City, c);
      AppendBlock(r1, Fda, a);
      AppendBlock(r2, Fdh, h);
      AppendBlock(r3, Drop, d);
      AppendBlock(r4, Status, s);
    }
    assert Values(r, City) == c && Values(r, Fda) == a && Values(r, Fdh) == h by {
      ValuesOfTags(c, a, h, d, s, City);
      ValuesOfTags(c, a, h, d, s, Fda);
      ValuesOfTags(c, a, h, d, s, Fdh);
    }
    assert Values(r, Drop) == d && Values(r, Status) == s by {
      ValuesOfTags(c, a, h, d, s, Drop);
      ValuesOfTags(c, a, h, d, s, Status);
    }
    assert NonBlank(c) && NonBlank(a) && NonBlank(h) && NonBlank(d) && NonBlank(s) ==>
             forall q :: q in r ==> q.value != "" by {
      if NonBlank(c) && NonBlank(a) && NonBlank(h) && NonBlank(d) && NonBlank(s) {
        assert [] + r1 == r1;
        AppendNonBlank([], City, c);
        AppendNonBlank(r1, Fda, a);
        AppendNonBlank(r2, Fdh, h);
        AppendNonBlank(r3, Drop, d);
        AppendNonBlank(r4, Status, s);
      }
    }
    r
  }

  /** `list.map(f).filter(Boolean)`. */
  function NormalizeAll(values: seq<string>, f: string -> string): (r: seq<string>)
    ensures NonBlank(r)
  {
    if |values| == 0 then []
    else
      var v := f(values[0]);
      var rest := NormalizeAll(values[1..], f);
      if v == "" then rest
      else
        assert ([v] + rest)[1..] == rest;
        [v] + rest
  }

  /** The `(key, value)` list `buildUrl` appends, in order: the trimmed city,
      the normalised FDA codes, the normalised FDH codes, the drop choice and
      the trimmed status ids; blank values are left out. */
  function BuildParams(city: string, fdas: seq<string>, fdhs: seq<string>, drop: string,
                       statuses: seq<string>): (r: seq<QueryParam>)
    ensures forall q :: q in r ==> q.value != ""
    ensures KeysInOrder(r)
    ensures Values(r, City) == if Trim(city) != "" then [Trim(city)] else []
    ensures Values(r, Fda) == NormalizeAll(fdas, NormalizeFda)
    ensures Values(r, Fdh) == NormalizeAll(fdhs, NormalizeFdh)
    ensures Values(r, Drop) == if drop != "" && drop != "any" then [drop] else []
    ensures Values(r, Status) == NormalizeAll(statuses, Trim)
  {
    var c := if Trim(city) != "" then [Trim(city)] else [];
    var d := if drop != "" && drop != "any" then [drop] else [];
    assert NonBlank(c) && NonBlank(d);
    Assemble(c, NormalizeAll(fdas, NormalizeFda), NormalizeAll(fdhs, NormalizeFdh), d, NormalizeAll(statuses, Trim))
  }

  /** Normalising a list twice is normalising it once, for any idempotent
      normaliser. */
  lemma {:induction false} NormalizeAllIdempotent(values: seq<string>, f: string -> string)
    requires forall v :: f(f(v)) == f(v)
    ensures NormalizeAll(NormalizeAll(values, f), f) == NormalizeAll(values, f)
  {
    if |values| > 0 {
      NormalizeAllIdempotent(values[1..], f);
      var v := f(values[0]);
      var rest := NormalizeAll(values[1..], f);
      assert f(v) == v;
      if v != "" {
        var nv := NormalizeAll(values, f);
        assert nv == [v] + rest;
        assert nv[0] == v && nv[1..] == rest;
      }
    }
  }

  /** `fetchPoints` normalises the FDA/FDH selections before `buildUrl`
      normalises them again; the second pass changes nothing. */
  lemma BuildParamsPrenormalized(city: string, fdas: seq<string>, fdhs: seq<string>, drop: string,
                                 statuses: seq<string>)
    ensures BuildParams(city, NormalizeAll(fdas, NormalizeFda), NormalizeAll(fdhs, NormalizeFdh), drop, statuses)
         == BuildParams(city, fdas, fdhs, drop, statuses)
  {
    forall v ensures NormalizeFda(NormalizeFda(v)) == NormalizeFda(v) {
      NormalizeFdaIdempotent(v);
    }
    forall v ensures NormalizeFdh(NormalizeFdh(v)) == NormalizeFdh(v) {
      NormalizeFdhIdempotent(v);
    }
    NormalizeAllIdempotent(fdas, NormalizeFda);
    NormalizeAllIdempotent(fdhs, NormalizeFdh);
  }

  lemma CanonicalClean(tag: string, r: string)
    requires Canonical(tag, r) && (tag == "FDA" || tag == "FDH")
    ensures IsTrimmed(r) && Free(r, ',')
  {
    CanonicalNoSpace(tag, r);
    forall k | 0 <= k < |r| ensures r[k] != ',' {
      if k >= 4 {
        assert r[k] == r[4..][k - 4];
      } else {
        assert r[k] == (tag + ":")[k];
      }
    }
  }

  /** A comma-free selection stays comma-free and comes out trimmed. */
  lemma NormalizeFdaClean(value: string)
    requires Free(value, ',')
    ensures IsTrimmed(NormalizeFda(value)) && Free(NormalizeFda(value), ',')
  {
    TrimSpec(value);
    TrimKeepsFree(value, ',');
    var t := Trim(value);
    if t != "" && (IsCode(t) || FdaPrefixed(t)) {
      CanonicalClean("FDA", NormalizeFda(value));
    }
  }

  lemma NormalizeFdhClean(value: string)
    requires Free(value, ',')
    ensures IsTrimmed(NormalizeFdh(value)) && Free(NormalizeFdh(value), ',')
  {
    TrimSpec(value);
    TrimKeepsFree(value, ',');
    var t := Trim(value);
    if t != "" && (IsCode(t) || FdhDigits(t).Some?) {
      CanonicalClean("FDH", NormalizeFdh(value));
    }
  }

  lemma {:induction false} NormalizeAllClean(values: seq<string>, f: string -> string)
    requires forall k :: 0 <= k < |values| ==> Free(values[k], ',')
    requires forall v :: Free(v, ',') ==> IsTrimmed(f(v)) && Free(f(v), ',')
    ensures CleanItems(NormalizeAll(values, f))
  {
    if |values| > 0 {
      NormalizeAllClean(values[1..], f);
      var v := f(values[0]);
      var rest := NormalizeAll(values[1..], f);
      if v != "" {
        assert NormalizeAll(values, f) == [v] + rest;
      }
    }
  }

  /** With comma-free selections, every list `buildUrl` sends is one
      `parseList` reads back unchanged. */
  lemma BuildParamsClean(fdas: seq<string>, fdhs: seq<string>, statuses: seq<string>)
    requires forall k :: 0 <= k < |fdas| ==> Free(fdas[k], ',')
    requires forall k :: 0 <= k < |fdhs| ==> Free(fdhs[k], ',')
    requires forall k :: 0 <= k < |statuses| ==> Free(statuses[k], ',')
    ensures CleanItems(NormalizeAll(fdas, NormalizeFda))
    ensures CleanItems(NormalizeAll(fdhs, NormalizeFdh))
    ensures CleanItems(NormalizeAll(statuses, Trim))
  {
    forall v | Free(v, ',') ensures IsTrimmed(NormalizeFda(v)) && Free(NormalizeFda(v), ',') {
      NormalizeFdaClean(v);
    }
    forall v | Free(v, ',') ensures IsTrimmed(NormalizeFdh(v)) && Free(NormalizeFdh(v), ',') {
      NormalizeFdhClean(v);
    }
    forall v | Free(v, ',') ensures IsTrimmed(Trim(v)) && Free(Trim(v), ',') {
      TrimSpec(v);
      TrimKeepsFree(v, ',');
    }
    NormalizeAllClean(fdas, NormalizeFda);
    NormalizeAllClean(fdhs, NormalizeFdh);
    NormalizeAllClean(statuses, Trim);
  }

  // ---------------------------------------------------------------------------
  // view filters

  /** The three view filters: ONT text, OLT text and the colour choice. */
  datatype ViewFilters = ViewFilters(ont: string, olt: string, power: string)

  /** The colour string a colour choice selects; any other choice (such as
      `"all"`) selects nothing and keeps every colour. */
  function PowerHex(power: string): Option<string> {
    if power == "red" then Some(Hex(Red))
    else if power == "purple" then Some(Hex(Purple))
    else if power == "black" then Some(Hex(Black))
    else if power == "blue" then Some(Hex(Blue))
    else if power == "gray" then Some(Hex(Gray))
    else if power == "yellow" then Some(Hex(Yellow))
    else if power == "green" then Some(Hex(Green))
    else None
  }

  /** A present, non-empty text whose lower-cased form contains `needle`. */
  predicate TextContains(v: Option<string>, needle: string) {
    v.Some? && v.value != "" && Contains(Lower(v.value), needle)
  }

  predicate OntMatch(p: Point, entries: seq<Entry>, ont: string) {
    ont == "" ||
    (|entries| > 0
     && exists i :: (0 <= i < |p.accounts|
                     && (TextContains(p.accounts[i].value, ont) || TextContains(p.accounts[i].inventoryModel, ont))))
  }

  /** The account's matched reading has a truthy `olt` whose text contains
      `olt`. */
  predicate OltOfMatch(a: Account, entries: seq<Entry>, olt: string) {
    var m := FindLightMatch(entries, a.value);
    m.Some? && "olt" in m.value && Truthy(m.value["olt"])
    && var t := ToText(m.value["olt"]); t.Some? && Contains(Lower(t.value), olt)
  }

  predicate OltMatch(p: Point, entries: seq<Entry>, olt: string) {
    olt == "" || |entries| == 0 ||
    exists i :: 0 <= i < |p.accounts| && OltOfMatch(p.accounts[i], entries, olt)
  }

  predicate PowerMatch(p: Point, entries: seq<Entry>, power: string) {
    var h := PowerHex(power);
    h.None? || Hex(Classify(p, entries, AppLowLight)) == h.value
  }

  /** The predicate `filteredPoints` keeps a point by. */
  predicate Keep(p: Point, entries: seq<Entry>, f: ViewFilters) {
    OntMatch(p, entries, Lower(Trim(f.ont)))
    && OltMatch(p, entries, Lower(Trim(f.olt)))
    && PowerMatch(p, entries, f.power)
  }

  /** `filteredPoints`: the points every active view filter accepts, in
      their original order. */
  function FilteredPoints(points: seq<Point>, entries: seq<Entry>, f: ViewFilters): (r: seq<Point>)
    ensures Seqs.IsSubseq(r, points)
    ensures forall p :: p in r <==> p in points && Keep(p, entries, f)
  {
    Seqs.FilterSpec(points, p => Keep(p, entries, f));
    Seqs.Filter(points, p => Keep(p, entries, f))
  }

  /** Filtering keeps every copy of a kept point and no copy of any other,
      so the number shown is the number of points the filters accept. */
  lemma FilteredPointsCount(points: seq<Point>, entries: seq<Entry>, f: ViewFilters)
    ensures forall p :: multiset(FilteredPoints(points, entries, f))[p]
                        == if Keep(p, entries, f) then multiset(points)[p] else 0
    ensures |FilteredPoints(points, entries, f)| == Seqs.Count(points, p => Keep(p, entries, f))
  {
    var keep := p => Keep(p, entries, f);
    Seqs.FilterMultiset(points, keep);
    Seqs.CountFilter(points, keep);
  }

  /** With blank text filters and colour choice `"all"`, every point is
      shown. */
  lemma NoFiltersKeepsAll(points: seq<Point>, entries: seq<Entry>)
    ensures FilteredPoints(points, entries, ViewFilters("", "", "all")) == points
  {
    var f := ViewFilters("", "", "all");
    forall k | 0 <= k < |points| ensures Keep(points[k], entries, f) {
      NoFiltersKeep(points[k], entries);
    }
    Seqs.FilterAll(points, p => Keep(p, entries, f));
  }

  lemma NoFiltersKeep(p: Point, entries: seq<Entry>)
    ensures Keep(p, entries, ViewFilters("", "", "all"))
  {
    assert Trim("") == "";
    assert Lower("") == "";
    assert PowerHex("all") == None;
  }

  /** A colour choice shows only the points of the colour it selects. */
  lemma {:induction false} ColourChoiceShowsThatColour(points: seq<Point>, entries: seq<Entry>, c: Color, power: string, p: Point)
    requires PowerHex(power) == Some(Hex(c))
    requires p in FilteredPoints(points, entries, ViewFilters("", "", power))
    ensures Classify(p, entries, AppLowLight) == c
  {
    KeptPowerMatches(points, entries, ViewFilters("", "", power), p);
    HexInjective(Classify(p, entries, AppLowLight), c);
  }

  lemma {:induction false} KeptPowerMatches(points: seq<Point>, entries: seq<Entry>, f: ViewFilters, p: Point)
    requires p in FilteredPoints(points, entries, f)
    ensures PowerHex(f.power).None? || Hex(Classify(p, entries, AppLowLight)) == PowerHex(f.power).value
  {
  }

  /** Every colour has a choice, named after it, that selects it. */
  lemma ChoiceSelects(c: Color)
    ensures PowerHex(ColourName(c)) == Some(Hex(c))
  {
  }

  /** The colour choice that selects each colour. */
  function ColourName(c: Color): string {
    match c
    case Black => "black"
    case Purple => "purple"
    case Gray => "gray"
    case Blue => "blue"
    case Red => "red"
    case Yellow => "yellow"
    case Green => "green"
  }

  // ---------------------------------------------------------------------------
  // marker counts

  datatype Counts = Counts(black: nat, blue: nat, red: nat, yellow: nat, green: nat, gray: nat, purple: nat)

  function Total(c: Counts): nat {
    c.black + c.blue + c.red + c.yellow + c.green + c.gray + c.purple
  }

  /** The number of counted points of colour `c`. */
  function CountOf(counts: Counts, c: Color): nat {
    match c
    case Black => counts.black
    case Blue => counts.blue
    case Red => counts.red
    case Yellow => counts.yellow
    case Green => counts.green
    case Gray => counts.gray
    case Purple => counts.purple
  }

  /** The colour of every point, in order. */
  function Colours(points: seq<Point>, entries: seq<Entry>): seq<Color> {
    seq(|points|, i requires 0 <= i < |points| => Classify(points[i], entries, AppLowLight))
  }

  /** How many times `c` occurs in `cs`. */
  function Occurrences(cs: seq<Color>, c: Color): nat {
    if |cs| == 0 then 0 else (if cs[0] == c then 1 else 0) + Occurrences(cs[1..], c)
  }

  /** One step of the `markerCounts` loop: the tally of the point's colour
      is bumped. */
  function Bump(counts: Counts, c0: Color): (r: Counts)
    ensures Total(r) == Total(counts) + 1
    ensures forall c :: CountOf(r, c) == CountOf(counts, c) + (if c == c0 then 1 else 0)
  {
    match c0
    case Black => counts.(black := counts.black + 1)
    case Blue => counts.(blue := counts.blue + 1)
    case Red => counts.(red := counts.red + 1)
    case Yellow => counts.(yellow := counts.yellow + 1)
    case Green => counts.(green := counts.green + 1)
    case Gray => counts.(gray := counts.gray + 1)
    case Purple => counts.(purple := counts.purple + 1)
  }

  /** The loop itself compares colour strings, in this order; since the seven
      strings are distinct, that is the same step. */
  function BumpByHex(counts: Counts, h: string): Counts {
    if h == "#111827" then counts.(black := counts.black + 1)
    else if h == "#2563eb" then counts.(blue := counts.blue + 1)
    else if h == "#dc2626" then counts.(red := counts.red + 1)
    else if h == "#facc15" then counts.(yellow := counts.yellow + 1)
    else if h == "#16a34a" then counts.(green := counts.green + 1)
    else if h == "#9ca3af" then counts.(gray := counts.gray + 1)
    else if h == "#9333ea" then counts.(purple := counts.purple + 1)
    else counts
  }

  lemma BumpByHexIsBump(counts: Counts, c0: Color)
    ensures BumpByHex(counts, Hex(c0)) == Bump(counts, c0)
  {
  }

  /** The `forEach` of `markerCounts` over a list of colours. */
  function Tally(cs: seq<Color>): Counts {
    if |cs| == 0 then Counts(0, 0, 0, 0, 0, 0, 0)
    else Bump(Tally(cs[1..]), cs[0])
  }

  /** Every colour is counted once: the tallies sum to the length. */
  lemma {:induction false} TallyTotal(cs: seq<Color>)
    ensures Total(Tally(cs)) == |cs|
  {
    if |cs| > 0 {
      TallyTotal(cs[1..]);
    }
  }

  /** Each tally counts exactly the occurrences of its colour. */
  lemma {:induction false} TallyCounts(cs: seq<Color>, c: Color)
    ensures CountOf(Tally(cs), c) == Occurrences(cs, c)
  {
    if |cs| > 0 {
      TallyCounts(cs[1..], c);
    }
  }

  /** `markerCounts` over the filtered points: each tally is the number of
      points of that colour and the seven tallies sum to the number of
      points. */
  function MarkerCounts(points: seq<Point>, entries: seq<Entry>): (r: Counts)
    ensures Total(r) == |points|
    ensures forall c :: CountOf(r, c) == Occurrences(Colours(points, entries), c)
  {
    TallyTotal(Colours(points, entries));
    forall c {
      TallyCounts(Colours(points, entries), c);
    }
    Tally(Colours(points, entries))
  }
}
