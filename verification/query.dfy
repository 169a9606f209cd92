/**
 * The server's parameterised queries: the schema read from the environment
 * and its identifier guard, the `/points` condition and parameter lists,
 * the column choices that degrade when no id column is configured, and the
 * `/fda-options` and `/fdh-options` builders. SQL is modelled as a list of
 * conditions, each carrying the placeholder indices it uses.
 */
module Query {
  import opened Wrappers
  import opened Text
  import opened Env
  import opened Classifier
  import opened Identifier
  import ClientFilters
  import Seqs

  // ---------------------------------------------------------------------------
  // schema

  /** The table and column names. An unset `ID_COLUMN` is the empty
      string. */
  datatype Schema = Schema(
    table: string, idColumn: string, lat: string, lng: string, city: string,
    address: string, line2: string, subdivision: string, zip: string,
    fdaFdh: string, drop: string, serviceable: string)

  function ReadSchema(env: Environment): Schema {
    Schema(
      EnvOr(env, "TABLE_NAME", "address_data"),
      EnvOr(env, "ID_COLUMN", ""),
      EnvOr(env, "LAT_COLUMN", "latitude"),
      EnvOr(env, "LNG_COLUMN", "longitude"),
      EnvOr(env, "CITY_COLUMN", "city"),
      EnvOr(env, "ADDRESS_COLUMN", "address"),
      EnvOr(env, "LINE2_COLUMN", "line2"),
      EnvOr(env, "SUBDIVISION_COLUMN", "subdivision"),
      EnvOr(env, "ZIP_COLUMN", "zip"),
      EnvOr(env, "FDA_FDH_COLUMN", "fda_fdh"),
      EnvOr(env, "DROP_COLUMN", "drop"),
      EnvOr(env, "SERVICEABLE_COLUMN", "serviceable"))
  }

  /** The regular-expression class `[a-zA-Z0-9_]`. */
  predicate WordChar(c: char) {
    'a' <= c <= 'z' || 'A' <= c <= 'Z' || '0' <= c <= '9' || c == '_'
  }

  /** `validIdentifier`: the test `/^[a-zA-Z0-9_]+$/`. */
  predicate ValidIdentifier(s: string) {
    s != "" && forall k :: 0 <= k < |s| ==> WordChar(s[k])
  }

  /** The identifiers `guardIdentifiers` checks, in its order. */
  function Identifiers(s: Schema): seq<(string, string)> {
    [("TABLE_NAME", s.table), ("ID_COLUMN", s.idColumn), ("LAT_COLUMN", s.lat),
     ("LNG_COLUMN", s.lng), ("CITY_COLUMN", s.city), ("ADDRESS_COLUMN", s.address),
     ("LINE2_COLUMN", s.line2), ("SUBDIVISION_COLUMN", s.subdivision), ("ZIP_COLUMN", s.zip),
     ("FDA_FDH_COLUMN", s.fdaFdh), ("DROP_COLUMN", s.drop), ("SERVICEABLE_COLUMN", s.serviceable)]
  }

  /** A configured (truthy) identifier that fails the test. */
  predicate Offending(entry: (string, string)) {
    entry.1 != "" && !ValidIdentifier(entry.1)
  }

  /** The outcome of the start-up guard: continue, or exit naming the first
      offending variable. */
  datatype Guard = Pass | Exit(key: string, value: string)

  function GuardIdentifiers(s: Schema): (g: Guard)
    ensures g.Pass? <==> forall k :: 0 <= k < |Identifiers(s)| ==> !Offending(Identifiers(s)[k])
    ensures g.Exit? ==> exists k :: 0 <= k < |Identifiers(s)| && Identifiers(s)[k] == (g.key, g.value)
                          && Offending(Identifiers(s)[k])
                          && forall j :: 0 <= j < k ==> !Offending(Identifiers(s)[j])
  {
    var ids := Identifiers(s);
    match Seqs.FirstIndex(ids, Offending, 0)
    case Some(k) => Exit(ids[k].0, ids[k].1)
    case None => Pass
  }

  /** The schema of an empty environment. */
  function DefaultSchema(): Schema {
    Schema("address_data", "", "latitude", "longitude", "city", "address", "line2",
           "subdivision", "zip", "fda_fdh", "drop", "serviceable")
  }

  lemma DefaultSchemaRead()
    ensures ReadSchema(map[]) == DefaultSchema()
  {
  }

  /** The defaults pass the guard, and leaving `ID_COLUMN` unset is allowed. */
  lemma DefaultsPass()
    ensures ReadSchema(map[]).idColumn == ""
    ensures GuardIdentifiers(ReadSchema(map[])) == Pass
  {
    DefaultSchemaRead();
    var ids := Identifiers(DefaultSchema());
    forall k | 0 <= k < |ids|
      ensures !Offending(ids[k])
    {
      if ids[k].1 != "" {
        DefaultValid(ids[k].1);
      }
    }
  }

  lemma DefaultValid(v: string)
    requires v in {"address_data", "latitude", "longitude", "city", "address", "line2", "subdivision", "zip", "fda_fdh", "drop", "serviceable"}
    ensures ValidIdentifier(v)
  {
    forall j | 0 <= j < |v|
      ensures WordChar(v[j])
    {
      if v == "address_data" {
        assert v[j] in "address_data";
      } else if v == "latitude" {
        assert v[j] in "latitude";
      } else if v == "longitude" {
        assert v[j] in "longitude";
      } else if v == "city" {
        assert v[j] in "city";
      } else if v == "address" {
        assert v[j] in "address";
      } else if v == "line2" {
        assert v[j] in "line2";
      } else if v == "subdivision" {
        assert v[j] in "subdivision";
      } else if v == "zip" {
        assert v[j] in "zip";
      } else if v == "fda_fdh" {
        assert v[j] in "fda_fdh";
      } else if v == "drop" {
        assert v[j] in "drop";
      } else if v == "serviceable" {
        assert v[j] in "serviceable";
      }
    }
  }

  /** Whatever passes the guard contains no character that could end an
      identifier in the SQL text: no space, quote, semicolon, dot, comma or
      parenthesis. */
  lemma GuardedIdentifiersAreBare(s: Schema, c: char)
    requires GuardIdentifiers(s) == Pass
    requires c in " '\";.,()-"
    ensures forall k :: 0 <= k < |Identifiers(s)| ==> c !in Identifiers(s)[k].1
  {
    forall k | 0 <= k < |Identifiers(s)|
      ensures c !in Identifiers(s)[k].1
    {
      assert !Offending(Identifiers(s)[k]);
    }
  }

  // ---------------------------------------------------------------------------
  // conditions and parameters

  /** A query-string value after parsing: absent, one string, or repeated
      keys collected into an array. */
  datatype QueryValue = Absent | Str(s: string) | Arr(items: seq<string>)

  predicate TruthyValue(v: QueryValue) {
    v.Arr? || (v.Str? && v.s != "")
  }

  /** A bound parameter of the query. */
  datatype Param =
    | PNum(n: Option<real>)        // `Number(x)`; `None` is `NaN`
    | PValue(v: QueryValue)        // a query value passed through as it came
    | PTextList(texts: seq<string>)
    | PNumList(nums: seq<real>)

  /** The shape a placeholder expects of its parameter. */
  datatype Kind = Num | Value | TextList | NumList

  function KindOf(p: Param): Kind {
    match p
    case PNum(_) => Num
    case PValue(_) => Value
    case PTextList(_) => TextList
    case PNumList(_) => NumList
  }

  /** One `WHERE` condition; the `nat` fields are placeholder numbers. */
  datatype Condition =
    | NotNull(col: string)
    | IsTrue(col: string)
    | Between(latCol: string, lngCol: string, first: nat)   // lat in $first..$first+1, lng in $first+2..$first+3
    | Equals(col: string, idx: nat)
    | SegmentAny(col: string, segment: nat, idx: nat)       // split_part(col, '|', segment) = ANY($idx::text[])
    | StatusExists(idRef: string, idx: nat)                 // an account of the address has a listed status
    | DropIsOne(col: string)
    | DropNotOne(col: string)

  /** The placeholders a condition mentions, in text order. */
  function Placeholders(c: Condition): seq<nat> {
    match c
    case Between(_, _, f) => [f, f + 1, f + 2, f + 3]
    case Equals(_, i) => [i]
    case SegmentAny(_, _, i) => [i]
    case StatusExists(_, i) => [i]
    case _ => []
  }

  /** The parameter shape each of those placeholders expects. */
  function Expects(c: Condition): seq<Kind> {
    match c
    case Between(_, _, _) => [Num, Num, Num, Num]
    case Equals(_, _) => [Value]
    case SegmentAny(_, _, _) => [TextList]
    case StatusExists(_, _) => [NumList]
    case _ => []
  }

  /** `$1`, ..., `$n`. */
  function Upto(n: nat): (r: seq<nat>)
    ensures |r| == n && forall i :: 0 <= i < n ==> r[i] == i + 1
  {
    seq(n, i requires 0 <= i < n => i + 1)
  }

  /** `$first`, ..., `$(first + n - 1)`. */
  function Consecutive(first: nat, n: nat): (r: seq<nat>)
    ensures |r| == n && forall i :: 0 <= i < n ==> r[i] == first + i
  {
    seq(n, i requires 0 <= i < n => first + i)
  }

  function Kinds(ps: seq<Param>): (r: seq<Kind>)
    ensures |r| == |ps| && forall i :: 0 <= i < |ps| ==> r[i] == KindOf(ps[i])
  {
    seq(|ps|, i requires 0 <= i < |ps| => KindOf(ps[i]))
  }

  /** A condition list with its parameters. */
  datatype Built = Built(conditions: seq<Condition>, params: seq<Param>)

  /** The placeholder invariant: read left to right, the conditions mention
      exactly `$1..$n` for `n` parameters, each once and in push order, and
      each parameter has the shape its placeholder expects. */
  predicate WellNumbered(b: Built) {
    Seqs.FlatMap(b.conditions, Placeholders) == Upto(|b.params|)
    && Seqs.FlatMap(b.conditions, Expects) == Kinds(b.params)
  }

  /** `conditions.push(c)` for a condition with placeholders
      `params.length + 1`, ..., followed by `params.push(...ps)`. */
  function Push(b: Built, c: Condition, ps: seq<Param>): (r: Built)
    requires Placeholders(c) == Consecutive(|b.params| + 1, |ps|)
    requires Expects(c) == Kinds(ps)
    ensures WellNumbered(b) ==> WellNumbered(r)
    ensures r.conditions == b.conditions + [c] && r.params == b.params + ps
  {
    var r := Built(b.conditions + [c], b.params + ps);
    assert Seqs.FlatMap(r.conditions, Placeholders) == Seqs.FlatMap(b.conditions, Placeholders) + Placeholders(c) by {
      Seqs.FlatMapAppend(b.conditions, [c], Placeholders);
      assert Seqs.FlatMap([c], Placeholders) == Placeholders(c);
    }
    assert Seqs.FlatMap(r.conditions, Expects) == Seqs.FlatMap(b.conditions, Expects) + Expects(c) by {
      Seqs.FlatMapAppend(b.conditions, [c], Expects);
      assert Seqs.FlatMap([c], Expects) == Expects(c);
    }
    assert Upto(|b.params|) + Placeholders(c) == Upto(|r.params|);
    assert Kinds(b.params) + Kinds(ps) == Kinds(r.params);
    r
  }

  // ---------------------------------------------------------------------------
  // /points

  /** The query fields `/points` reads. */
  datatype PointsQuery = PointsQuery(
    minLat: QueryValue, maxLat: QueryValue, minLng: QueryValue, maxLng: QueryValue,
    city: QueryValue, fda: QueryValue, fdh: QueryValue, drop: QueryValue, status: QueryValue)

  function EmptyQuery(): PointsQuery {
    PointsQuery(Absent, Absent, Absent, Absent, Absent, Absent, Absent, Absent, Absent)
  }

  /** All four bounds were given (`!== undefined`). */
  predicate HasBounds(q: PointsQuery) {
    !q.minLat.Absent? && !q.maxLat.Absent? && !q.minLng.Absent? && !q.maxLng.Absent?
  }

  /** `Number(v)` of a query value. An array converts through its
      comma-joined text, so `["40"]` is 40 and `[]` is 0; an absent value is
      `NaN`. */
  function NumberOf(v: QueryValue): Option<real> {
    match v
    case Str(s) => JsNumber(s)
    case Arr(items) => JsNumber(Join(items, ','))
    case Absent => None
  }

  /** A one-item array reads as its item, as in `Number(["40"]) == 40`, and
      an empty array reads as zero. */
  lemma NumberOfArray(t: string)
    ensures NumberOf(Arr([t])) == NumberOf(Str(t))
    ensures NumberOf(Arr([])) == Some(0.0)
  {
    assert Join([t], ',') == t;
    assert Join([], ',') == "";
    assert Trim("") == "";
  }

  /** `parseList`: an array as it is, a non-empty string as a comma list,
      anything else as no items. */
  function ParseList(v: QueryValue): seq<string> {
    match v
    case Arr(items) => items
    case Str(s) => if |s| > 0 then CommaList(s) else []
    case Absent => []
  }

  /** `parseList` reads an array as it is, a non-empty string as its
      non-blank trimmed comma pieces in order, and anything else as no
      items. */
  lemma ParseListItems(v: QueryValue)
    ensures v.Arr? ==> ParseList(v) == v.items
    ensures v.Str? && v.s != "" ==> ParseList(v) == Seqs.Filter(TrimAll(Split(v.s, ',')), NonBlank)
    ensures v.Str? && v.s != "" ==> forall t :: t in ParseList(v) <==>
              t != "" && exists k :: 0 <= k < |Split(v.s, ',')| && t == Trim(Split(v.s, ',')[k])
    ensures v.Absent? || v == Str("") ==> ParseList(v) == []
  {
    if v.Str? && v.s != "" {
      CommaListItems(v.s);
    }
  }

  /** White space after a comma is ignored: `"a, b"` reads as `a` and `b`. */
  lemma ParseListSpaced(a: string, b: string)
    requires a != "" && IsTrimmed(a) && Free(a, ',')
    requires b != "" && IsTrimmed(b) && Free(b, ',')
    ensures ParseList(Str(a + ", " + b)) == [a, b]
  {
    CommaListSpaced(a, b);
  }

  /** How a query string delivers a key given `n` times: absent, a single
      string, or an array. */
  function Received(values: seq<string>): QueryValue {
    if |values| == 0 then Absent else if |values| == 1 then Str(values[0]) else Arr(values)
  }

  /** Round trip: items the browser sends as repeated keys come back out of
      `parseList` unchanged, provided each is a clean list item. */
  lemma ParseListReceived(values: seq<string>)
    requires CleanItems(values)
    ensures ParseList(Received(values)) == values
  {
    if |values| == 1 {
      assert Join(values, ',') == values[0];
      CommaListJoin(values);
    }
  }

  /** Round trip from browser to server: the query string `buildUrl` sends
      reaches `/points` as the trimmed city, the normalised selections and
      the drop choice it was built from. */
  lemma BuildParamsReceived(city: string, fdas: seq<string>, fdhs: seq<string>, drop: string,
                            statuses: seq<string>)
    requires forall k :: 0 <= k < |fdas| ==> Free(fdas[k], ',')
    requires forall k :: 0 <= k < |fdhs| ==> Free(fdhs[k], ',')
    requires forall k :: 0 <= k < |statuses| ==> Free(statuses[k], ',')
    ensures var ps := ClientFilters.BuildParams(city, fdas, fdhs, drop, statuses);
            && Received(ClientFilters.Values(ps, ClientFilters.City))
               == (if Trim(city) != "" then Str(Trim(city)) else Absent)
            && ParseList(Received(ClientFilters.Values(ps, ClientFilters.Fda)))
               == ClientFilters.NormalizeAll(fdas, ClientFilters.NormalizeFda)
            && ParseList(Received(ClientFilters.Values(ps, ClientFilters.Fdh)))
               == ClientFilters.NormalizeAll(fdhs, ClientFilters.NormalizeFdh)
            && Received(ClientFilters.Values(ps, ClientFilters.Drop))
               == (if drop != "" && drop != "any" then Str(drop) else Absent)
            && ParseList(Received(ClientFilters.Values(ps, ClientFilters.Status)))
               == ClientFilters.NormalizeAll(statuses, Trim)
  {
    ClientFilters.BuildParamsClean(fdas, fdhs, statuses);
    ParseListReceived(ClientFilters.NormalizeAll(fdas, ClientFilters.NormalizeFda));
    ParseListReceived(ClientFilters.NormalizeAll(fdhs, ClientFilters.NormalizeFdh));
    ParseListReceived(ClientFilters.NormalizeAll(statuses, Trim));
  }

  /** `.map(v => Number(v)).filter(v => !Number.isNaN(v))`. */
  function Numbers(items: seq<string>): seq<real> {
    Parsed(items, JsNumber)
  }

  /** The items `parse` accepts, parsed, in order. */
  function Parsed(items: seq<string>, parse: string -> Option<real>): seq<real> {
    if |items| == 0 then []
    else
      match parse(items[0])
      case Some(x) => [x] + Parsed(items[1..], parse)
      case None => Parsed(items[1..], parse)
  }

  /** Status ids as the browser prints them into the query string. */
  function Printed(ids: seq<nat>): seq<string> {
    if |ids| == 0 then [] else [NatToString(ids[0])] + Printed(ids[1..])
  }

  function AsReals(ids: seq<nat>): seq<real> {
    if |ids| == 0 then [] else [ids[0] as real] + AsReals(ids[1..])
  }

  /** Status ids printed as decimal strings are read back as those ids, none
      lost and in order. */
  lemma {:induction false} NumbersOfPrinted(ids: seq<nat>)
    ensures Numbers(Printed(ids)) == AsReals(ids)
  {
    if |ids| > 0 {
      NumbersOfPrinted(ids[1..]);
      JsNumberOfNat(ids[0]);
      assert Printed(ids)[0] == NatToString(ids[0]);
      assert Printed(ids)[1..] == Printed(ids[1..]);
    }
  }

  /** Items that are not numbers are dropped. */
  lemma {:induction false} NumbersDropsNaN(items: seq<string>)
    requires forall k :: 0 <= k < |items| ==> JsNumber(items[k]).None?
    ensures Numbers(items) == []
  {
    if |items| > 0 {
      NumbersDropsNaN(items[1..]);
      assert JsNumber(items[0]).None?;
    }
  }

  /** `String(drop).toLowerCase()`; an array prints as its comma-joined
      items. */
  function DropText(v: QueryValue): string {
    match v
    case Str(s) => Lower(s)
    case Arr(items) => Lower(Join(items, ','))
    case Absent => ""
  }

  /** The drop mapping: completed, not completed, or no condition. */
  function DropCondition(s: Schema, v: QueryValue): (c: Option<Condition>)
    ensures c == Some(DropIsOne(s.drop)) <==> TruthyValue(v) && DropText(v) in {"completed", "1"}
    ensures c == Some(DropNotOne(s.drop)) <==> TruthyValue(v) && DropText(v) in {"notcompleted", "0", "null"}
    ensures c.None? <==> !TruthyValue(v) || DropText(v) !in {"completed", "1", "notcompleted", "0", "null"}
  {
    if !TruthyValue(v) then None
    else
      var d := DropText(v);
      if d == "completed" || d == "1" then Some(DropIsOne(s.drop))
      else if d == "notcompleted" || d == "0" || d == "null" then Some(DropNotOne(s.drop))
      else None
  }

  lemma LowerIdempotent(s: string)
    ensures Lower(Lower(s)) == Lower(s)
  {
  }

  /** The mapping ignores letter case. */
  lemma DropCaseInsensitive(s: Schema, t: string)
    ensures DropCondition(s, Str(t)) == DropCondition(s, Str(Lower(t)))
  {
    LowerIdempotent(t);
  }

  /** The four box parameters, `Number(minLat)`, `Number(maxLat)`,
      `Number(minLng)`, `Number(maxLng)`, in that order. */
  function Box(q: PointsQuery): seq<Param> {
    [PNum(NumberOf(q.minLat)), PNum(NumberOf(q.maxLat)), PNum(NumberOf(q.minLng)), PNum(NumberOf(q.maxLng))]
  }

  /** The condition the bounding box adds: lat and lng ranges on the next
      four placeholders. */
  function AddBounds(s: Schema, q: PointsQuery, b: Built): (r: Built)
    ensures WellNumbered(b) ==> WellNumbered(r)
    ensures HasBounds(q) ==> r.conditions == b.conditions + [Between(s.lat, s.lng, |b.params| + 1)]
                             && r.params == b.params + Box(q)
    ensures !HasBounds(q) ==> r == b
    ensures b.conditions <= r.conditions && |r.params| == |b.params| + 4 * Flag(HasBounds(q))
  {
    if HasBounds(q) then PushBox(s, b, Box(q)) else b
  }

  /** Pushing the box condition with four numbers keeps the placeholders
      numbered. */
  function PushBox(s: Schema, b: Built, ps: seq<Param>): (r: Built)
    requires |ps| == 4 && forall k :: 0 <= k < 4 ==> ps[k].PNum?
    ensures WellNumbered(b) ==> WellNumbered(r)
    ensures r.conditions == b.conditions + [Between(s.lat, s.lng, |b.params| + 1)] && r.params == b.params + ps
  {
    var c := Between(s.lat, s.lng, |b.params| + 1);
    assert Placeholders(c) == Consecutive(|b.params| + 1, |ps|);
    assert Expects(c) == Kinds(ps);
    Push(b, c, ps)
  }

  /** A filter that appends at most one condition, never a bounding box,
      and at most one parameter: the shape of every step after the box. */
  predicate Extends(b: Built, r: Built) {
    b.conditions <= r.conditions && b.params <= r.params
    && forall k :: |b.conditions| <= k < |r.conditions| ==> !r.conditions[k].Between?
  }

  lemma ExtendsTransitive(a: Built, b: Built, c: Built)
    requires Extends(a, b) && Extends(b, c)
    ensures Extends(a, c)
  {
    forall k | |a.conditions| <= k < |c.conditions|
      ensures !c.conditions[k].Between?
    {
      if k < |b.conditions| {
        assert c.conditions[k] == b.conditions[k];
      }
    }
  }

  function AddCity(s: Schema, q: PointsQuery, b: Built): (r: Built)
    ensures WellNumbered(b) ==> WellNumbered(r)
    ensures Extends(b, r)
    ensures TruthyValue(q.city) ==> r.conditions == b.conditions + [Equals(s.city, |b.params| + 1)]
                                    && r.params == b.params + [PValue(q.city)]
    ensures !TruthyValue(q.city) ==> r == b
  {
    if TruthyValue(q.city) then Push(b, Equals(s.city, |b.params| + 1), [PValue(q.city)]) else b
  }

  /** An `fda` or `fdh` list filter on segment 1 or 2 of the FDA/FDH
      column. */
  function AddSegment(s: Schema, segment: nat, v: QueryValue, b: Built): (r: Built)
    ensures WellNumbered(b) ==> WellNumbered(r)
    ensures Extends(b, r)
    ensures |ParseList(v)| > 0 ==> r.conditions == b.conditions + [SegmentAny(s.fdaFdh, segment, |b.params| + 1)]
                                   && r.params == b.params + [PTextList(ParseList(v))]
    ensures |ParseList(v)| == 0 ==> r == b
  {
    var items := ParseList(v);
    if |items| > 0 then Push(b, SegmentAny(s.fdaFdh, segment, |b.params| + 1), [PTextList(items)]) else b
  }

  /** The id column the status filter joins on. */
  function StatusRef(s: Schema): string {
    if s.idColumn != "" then s.idColumn else "address_id"
  }

  /** The status filter for the numeric ids of the `status` list. */
  function AddStatus(s: Schema, ids: seq<real>, b: Built): (r: Built)
    ensures WellNumbered(b) ==> WellNumbered(r)
    ensures Extends(b, r)
    ensures |ids| > 0 ==> r.conditions == b.conditions + [StatusExists(StatusRef(s), |b.params| + 1)]
                          && r.params == b.params + [PNumList(ids)]
    ensures |ids| == 0 ==> r == b
  {
    if |ids| > 0 then Push(b, StatusExists(StatusRef(s), |b.params| + 1), [PNumList(ids)]) else b
  }

  function AddDrop(s: Schema, q: PointsQuery, b: Built): (r: Built)
    ensures WellNumbered(b) ==> WellNumbered(r)
    ensures Extends(b, r)
    ensures DropCondition(s, q.drop).Some? ==> r.conditions == b.conditions + [DropCondition(s, q.drop).value]
    ensures DropCondition(s, q.drop).None? ==> r.conditions == b.conditions
    ensures r.params == b.params
  {
    match DropCondition(s, q.drop)
    case Some(c) => Push(b, c, [])
    case None => b
  }

  /** The three conditions every `/points` query has. */
  function Baseline(s: Schema): seq<Condition> {
    [NotNull(s.lat), NotNull(s.lng), IsTrue(s.serviceable)]
  }

  function Flag(b: bool): nat {
    if b then 1 else 0
  }

  /** Everything after the bounding box: city, FDA, FDH, status and drop, in
      that order. */
  function AddFilters(s: Schema, q: PointsQuery, b: Built): (r: Built)
    ensures WellNumbered(b) ==> WellNumbered(r)
    ensures Extends(b, r)
    ensures |r.params| == |b.params| + Flag(TruthyValue(q.city)) + Flag(|ParseList(q.fda)| > 0)
                          + Flag(|ParseList(q.fdh)| > 0) + Flag(|Numbers(ParseList(q.status))| > 0)
    ensures |r.conditions| == |b.conditions| + Flag(TruthyValue(q.city)) + Flag(|ParseList(q.fda)| > 0)
                              + Flag(|ParseList(q.fdh)| > 0) + Flag(|Numbers(ParseList(q.status))| > 0)
                              + Flag(DropCondition(s, q.drop).Some?)
  {
    var b2 := AddCity(s, q, b);
    var b3 := AddSegment(s, 1, q.fda, b2);
    var b4 := AddSegment(s, 2, q.fdh, b3);
    var b5 := AddStatus(s, Numbers(ParseList(q.status)), b4);
    var b6 := AddDrop(s, q, b5);
    ExtendsTransitive(b, b2, b3);
    ExtendsTransitive(b, b3, b4);
    ExtendsTransitive(b, b4, b5);
    ExtendsTransitive(b, b5, b6);
    b6
  }

  /** The start of every `/points` query: the baseline, no parameters. */
  function Start(s: Schema): (b: Built)
    ensures WellNumbered(b)
    ensures b == Built(Baseline(s), [])
  {
    var b := Built(Baseline(s), []);
    Seqs.FlatMapEmpty(b.conditions, Placeholders);
    Seqs.FlatMapEmpty(b.conditions, Expects);
    b
  }

  /** The `/points` builder. */
  function BuildPoints(s: Schema, q: PointsQuery): (r: Built)
    ensures WellNumbered(r)
    ensures Baseline(s) <= r.conditions
    ensures |r.params| == 4 * Flag(HasBounds(q)) + Flag(TruthyValue(q.city)) + Flag(|ParseList(q.fda)| > 0)
                          + Flag(|ParseList(q.fdh)| > 0) + Flag(|Numbers(ParseList(q.status))| > 0)
    ensures |r.conditions| == 3 + Flag(HasBounds(q)) + Flag(TruthyValue(q.city)) + Flag(|ParseList(q.fda)| > 0)
                              + Flag(|ParseList(q.fdh)| > 0) + Flag(|Numbers(ParseList(q.status))| > 0)
                              + Flag(DropCondition(s, q.drop).Some?)
  {
    var b0 := Start(s);
    var b1 := AddBounds(s, q, b0);
    var r := AddFilters(s, q, b1);
    assert b0.conditions == Baseline(s) && |b0.params| == 0;
    assert b0.conditions <= b1.conditions <= r.conditions;
    r
  }

  /** With no query fields the query has exactly the baseline conditions and
      no parameters. */
  lemma EmptyQueryIsBaseline(s: Schema)
    ensures BuildPoints(s, EmptyQuery()) == Built(Baseline(s), [])
  {
    var q := EmptyQuery();
    assert ParseList(q.fda) == [] && ParseList(q.status) == [];
    assert Numbers([]) == [];
  }

  /** A condition list that holds only baseline and box conditions: what
      the filters after the box start from. */
  predicate BoxOnly(s: Schema, b: Built) {
    forall c :: c in b.conditions ==> c in Baseline(s) || c.Between?
  }

  /** `BuildPoints` is the filters applied to the boxed baseline. */
  lemma PointsSteps(s: Schema, q: PointsQuery)
    ensures BuildPoints(s, q) == AddFilters(s, q, AddBounds(s, q, Start(s)))
    ensures forall c :: c in AddBounds(s, q, Start(s)).conditions ==>
              c in Baseline(s) || (HasBounds(q) && c == Between(s.lat, s.lng, 1))
  {
  }

  /** The bounding box is used only when all four bounds are present, and
      then as the first filter, with the four numeric parameters `$1..$4`. */
  lemma BoundsOnlyWhenComplete(s: Schema, q: PointsQuery)
    ensures (exists k :: 0 <= k < |BuildPoints(s, q).conditions| && BuildPoints(s, q).conditions[k].Between?) <==> HasBounds(q)
    ensures HasBounds(q) ==> BuildPoints(s, q).conditions[3] == Between(s.lat, s.lng, 1)
                             && BuildPoints(s, q).params[..4] == Box(q)
  {
    if HasBounds(q) {
      BoxFirst(s, q);
    } else {
      NoBoxWithoutBounds(s, q);
    }
  }

  /** With all four bounds the box is the fourth condition, on `$1..$4`. */
  lemma BoxFirst(s: Schema, q: PointsQuery)
    requires HasBounds(q)
    ensures |BuildPoints(s, q).conditions| > 3 && |BuildPoints(s, q).params| >= 4
    ensures BuildPoints(s, q).conditions[3] == Between(s.lat, s.lng, 1) && BuildPoints(s, q).params[..4] == Box(q)
  {
    var b1 := AddBounds(s, q, Start(s));
    var r := BuildPoints(s, q);
    assert Extends(b1, r) by {
      PointsSteps(s, q);
    }
    assert r.conditions[3] == b1.conditions[3] by {
      assert b1.conditions <= r.conditions && |b1.conditions| == 4;
    }
    assert r.params[..4] == b1.params by {
      assert b1.params <= r.params && |b1.params| == 4;
    }
  }

  /** Without all four bounds no condition is a box. */
  lemma NoBoxWithoutBounds(s: Schema, q: PointsQuery)
    requires !HasBounds(q)
    ensures forall k :: 0 <= k < |BuildPoints(s, q).conditions| ==> !BuildPoints(s, q).conditions[k].Between?
  {
    var b1 := AddBounds(s, q, Start(s));
    var r := BuildPoints(s, q);
    assert Extends(b1, r) && b1.conditions == Baseline(s) by {
      PointsSteps(s, q);
    }
    forall k | 0 <= k < |r.conditions|
      ensures !r.conditions[k].Between?
    {
      if k < 3 {
        assert r.conditions[k] == b1.conditions[k];
      }
    }
  }

  /** The five steps of `AddFilters`, named. */
  lemma FilterSteps(s: Schema, q: PointsQuery, b: Built) returns (b2: Built, b3: Built, b4: Built, b5: Built)
    ensures b2 == AddCity(s, q, b) && b3 == AddSegment(s, 1, q.fda, b2) && b4 == AddSegment(s, 2, q.fdh, b3)
    ensures b5 == AddStatus(s, Numbers(ParseList(q.status)), b4) && AddFilters(s, q, b) == AddDrop(s, q, b5)
  {
    b2 := AddCity(s, q, b);
    b3 := AddSegment(s, 1, q.fda, b2);
    b4 := AddSegment(s, 2, q.fdh, b3);
    b5 := AddStatus(s, Numbers(ParseList(q.status)), b4);
  }

  /** A condition and a bound parameter survive any extension. */
  lemma Kept(b: Built, r: Built, c: Condition, i: nat, p: Param)
    requires Extends(b, r) && c in b.conditions && 1 <= i <= |b.params| && b.params[i - 1] == p
    ensures c in r.conditions && 1 <= i <= |r.params| && r.params[i - 1] == p
  {
    assert r.params[..|b.params|] == b.params;
  }

  /** The drop step appends a drop condition or nothing. */
  lemma DropStepAdds(s: Schema, q: PointsQuery, b: Built, c: Condition)
    requires c in AddDrop(s, q, b).conditions && !c.DropIsOne? && !c.DropNotOne?
    ensures c in b.conditions
  {
  }

  /** The filter of an active query field: on that field's column and, for
      the FDA/FDH column, that field's segment. */
  predicate FilterOrigin(s: Schema, q: PointsQuery, c: Condition) {
    (c.Equals? && c.col == s.city && TruthyValue(q.city))
    || (c.SegmentAny? && c.col == s.fdaFdh && c.segment == 1 && |ParseList(q.fda)| > 0)
    || (c.SegmentAny? && c.col == s.fdaFdh && c.segment == 2 && |ParseList(q.fdh)| > 0)
    || (c.StatusExists? && c.idRef == StatusRef(s) && |Numbers(ParseList(q.status))| > 0)
    || DropCondition(s, q.drop) == Some(c)
  }

  /** A condition after the filters was there before or is the filter of
      an active field. */
  lemma FilterOriginOf(s: Schema, q: PointsQuery, b: Built, c: Condition)
    requires c in AddFilters(s, q, b).conditions
    ensures c in b.conditions || FilterOrigin(s, q, c)
  {
    var b2, b3, b4, b5 := FilterSteps(s, q, b);
    if c !in b5.conditions {
      assert DropCondition(s, q.drop) == Some(c);
    } else if c !in b4.conditions {
      assert c == StatusExists(StatusRef(s), |b4.params| + 1);
    } else if c !in b3.conditions {
      assert c == SegmentAny(s.fdaFdh, 2, |b3.params| + 1);
    } else if c !in b2.conditions {
      assert c == SegmentAny(s.fdaFdh, 1, |b2.params| + 1);
    }
  }

  /** The filters add only conditions of active fields. */
  lemma FilterOrigins(s: Schema, q: PointsQuery, b: Built)
    ensures forall c :: c in AddFilters(s, q, b).conditions ==> c in b.conditions || FilterOrigin(s, q, c)
  {
    forall c | c in AddFilters(s, q, b).conditions
      ensures c in b.conditions || FilterOrigin(s, q, c)
    {
      FilterOriginOf(s, q, b, c);
    }
  }

  /** Where a condition of a `/points` query can come from: the baseline,
      the box, or the filter of an active query field. */
  predicate Origin(s: Schema, q: PointsQuery, c: Condition) {
    c in Baseline(s) || (HasBounds(q) && c == Between(s.lat, s.lng, 1)) || FilterOrigin(s, q, c)
  }

  /** Every condition of a `/points` query has an origin: no filter adds a
      condition for another field, and an inactive field adds none. */
  lemma PointsConditionOrigins(s: Schema, q: PointsQuery)
    ensures forall c :: c in BuildPoints(s, q).conditions ==> Origin(s, q, c)
  {
    PointsSteps(s, q);
    FilterOrigins(s, q, AddBounds(s, q, Start(s)));
  }

  /** An active city adds its equality, with its value bound. */
  lemma CityAdded(s: Schema, q: PointsQuery, b: Built) returns (i: nat)
    requires TruthyValue(q.city)
    ensures var r := AddFilters(s, q, b);
            1 <= i <= |r.params| && Equals(s.city, i) in r.conditions && r.params[i - 1] == PValue(q.city)
  {
    var b2, b3, b4, b5 := FilterSteps(s, q, b);
    var r := AddFilters(s, q, b);
    i := |b.params| + 1;
    assert Extends(b2, r) by {
      ExtendsTransitive(b2, b3, b4);
      ExtendsTransitive(b2, b4, b5);
      ExtendsTransitive(b2, b5, r);
    }
    Kept(b2, r, Equals(s.city, i), i, PValue(q.city));
  }

  /** An inactive city adds no equality on the city column. */
  lemma CityNotAdded(s: Schema, q: PointsQuery, b: Built, i: nat)
    requires !TruthyValue(q.city) && Equals(s.city, i) in AddFilters(s, q, b).conditions
    ensures Equals(s.city, i) in b.conditions
  {
    var b2, b3, b4, b5 := FilterSteps(s, q, b);
    DropStepAdds(s, q, b5, Equals(s.city, i));
  }

  /** The city filter over any boxed baseline. */
  lemma CityFilterFrom(s: Schema, q: PointsQuery, b: Built)
    requires BoxOnly(s, b)
    ensures var r := AddFilters(s, q, b);
            TruthyValue(q.city) <==>
              exists i :: 1 <= i <= |r.params| && Equals(s.city, i) in r.conditions && r.params[i - 1] == PValue(q.city)
  {
    if TruthyValue(q.city) {
      var i := CityAdded(s, q, b);
    } else {
      forall i | Equals(s.city, i) in AddFilters(s, q, b).conditions
        ensures Equals(s.city, i) in b.conditions
      {
        CityNotAdded(s, q, b, i);
      }
    }
  }

  /** An active `fda` list adds its segment-1 test, with the list bound. */
  lemma FdaAdded(s: Schema, q: PointsQuery, b: Built) returns (i: nat)
    requires |ParseList(q.fda)| > 0
    ensures var r := AddFilters(s, q, b);
            1 <= i <= |r.params| && SegmentAny(s.fdaFdh, 1, i) in r.conditions
            && r.params[i - 1] == PTextList(ParseList(q.fda))
  {
    var b2, b3, b4, b5 := FilterSteps(s, q, b);
    var r := AddFilters(s, q, b);
    i := |b2.params| + 1;
    assert Extends(b3, r) by {
      ExtendsTransitive(b3, b4, b5);
      ExtendsTransitive(b3, b5, r);
    }
    Kept(b3, r, SegmentAny(s.fdaFdh, 1, i), i, PTextList(ParseList(q.fda)));
  }

  /** An empty `fda` list adds no segment-1 test. */
  lemma FdaNotAdded(s: Schema, q: PointsQuery, b: Built, i: nat)
    requires |ParseList(q.fda)| == 0 && SegmentAny(s.fdaFdh, 1, i) in AddFilters(s, q, b).conditions
    ensures SegmentAny(s.fdaFdh, 1, i) in b.conditions
  {
    var b2, b3, b4, b5 := FilterSteps(s, q, b);
    DropStepAdds(s, q, b5, SegmentAny(s.fdaFdh, 1, i));
  }

  /** The FDA filter over any boxed baseline. */
  lemma FdaFilterFrom(s: Schema, q: PointsQuery, b: Built)
    requires BoxOnly(s, b)
    ensures var r := AddFilters(s, q, b);
            |ParseList(q.fda)| > 0 <==>
              exists i :: 1 <= i <= |r.params| && SegmentAny(s.fdaFdh, 1, i) in r.conditions
                          && r.params[i - 1] == PTextList(ParseList(q.fda))
  {
    if |ParseList(q.fda)| > 0 {
      var i := FdaAdded(s, q, b);
    } else {
      forall i | SegmentAny(s.fdaFdh, 1, i) in AddFilters(s, q, b).conditions
        ensures SegmentAny(s.fdaFdh, 1, i) in b.conditions
      {
        FdaNotAdded(s, q, b, i);
      }
    }
  }

  /** An active `fdh` list adds its segment-2 test, with the list bound. */
  lemma FdhAdded(s: Schema, q: PointsQuery, b: Built) returns (i: nat)
    requires |ParseList(q.fdh)| > 0
    ensures var r := AddFilters(s, q, b);
            1 <= i <= |r.params| && SegmentAny(s.fdaFdh, 2, i) in r.conditions
            && r.params[i - 1] == PTextList(ParseList(q.fdh))
  {
    var b2, b3, b4, b5 := FilterSteps(s, q, b);
    var r := AddFilters(s, q, b);
    i := |b3.params| + 1;
    assert Extends(b4, r) by {
      ExtendsTransitive(b4, b5, r);
    }
    Kept(b4, r, SegmentAny(s.fdaFdh, 2, i), i, PTextList(ParseList(q.fdh)));
  }

  /** An empty `fdh` list adds no segment-2 test. */
  lemma FdhNotAdded(s: Schema, q: PointsQuery, b: Built, i: nat)
    requires |ParseList(q.fdh)| == 0 && SegmentAny(s.fdaFdh, 2, i) in AddFilters(s, q, b).conditions
    ensures SegmentAny(s.fdaFdh, 2, i) in b.conditions
  {
    var b2, b3, b4, b5 := FilterSteps(s, q, b);
    DropStepAdds(s, q, b5, SegmentAny(s.fdaFdh, 2, i));
  }

  /** The FDH filter over any boxed baseline. */
  lemma FdhFilterFrom(s: Schema, q: PointsQuery, b: Built)
    requires BoxOnly(s, b)
    ensures var r := AddFilters(s, q, b);
            |ParseList(q.fdh)| > 0 <==>
              exists i :: 1 <= i <= |r.params| && SegmentAny(s.fdaFdh, 2, i) in r.conditions
                          && r.params[i - 1] == PTextList(ParseList(q.fdh))
  {
    if |ParseList(q.fdh)| > 0 {
      var i := FdhAdded(s, q, b);
    } else {
      forall i | SegmentAny(s.fdaFdh, 2, i) in AddFilters(s, q, b).conditions
        ensures SegmentAny(s.fdaFdh, 2, i) in b.conditions
      {
        FdhNotAdded(s, q, b, i);
      }
    }
  }

  /** Numeric `status` items add the `EXISTS` test, with the numbers bound. */
  lemma StatusAdded(s: Schema, q: PointsQuery, b: Built) returns (i: nat)
    requires |Numbers(ParseList(q.status))| > 0
    ensures var r := AddFilters(s, q, b);
            1 <= i <= |r.params| && StatusExists(StatusRef(s), i) in r.conditions
            && r.params[i - 1] == PNumList(Numbers(ParseList(q.status)))
  {
    var b2, b3, b4, b5 := FilterSteps(s, q, b);
    var r := AddFilters(s, q, b);
    i := |b4.params| + 1;
    Kept(b5, r, StatusExists(StatusRef(s), i), i, PNumList(Numbers(ParseList(q.status))));
  }

  /** Without numeric `status` items there is no `EXISTS` test. */
  lemma StatusNotAdded(s: Schema, q: PointsQuery, b: Built, i: nat)
    requires |Numbers(ParseList(q.status))| == 0 && StatusExists(StatusRef(s), i) in AddFilters(s, q, b).conditions
    ensures StatusExists(StatusRef(s), i) in b.conditions
  {
    var b2, b3, b4, b5 := FilterSteps(s, q, b);
    DropStepAdds(s, q, b5, StatusExists(StatusRef(s), i));
  }

  /** The status filter over any boxed baseline. */
  lemma StatusFilterFrom(s: Schema, q: PointsQuery, b: Built)
    requires BoxOnly(s, b)
    ensures var r := AddFilters(s, q, b);
            |Numbers(ParseList(q.status))| > 0 <==>
              exists i :: 1 <= i <= |r.params| && StatusExists(StatusRef(s), i) in r.conditions
                          && r.params[i - 1] == PNumList(Numbers(ParseList(q.status)))
  {
    if |Numbers(ParseList(q.status))| > 0 {
      var i := StatusAdded(s, q, b);
    } else {
      forall i | StatusExists(StatusRef(s), i) in AddFilters(s, q, b).conditions
        ensures StatusExists(StatusRef(s), i) in b.conditions
      {
        StatusNotAdded(s, q, b, i);
      }
    }
  }

  /** The drop filter over any condition list. */
  lemma DropFilterFrom(s: Schema, q: PointsQuery, b: Built)
    ensures DropCondition(s, q.drop).Some? ==> DropCondition(s, q.drop).value in AddFilters(s, q, b).conditions
  {
    var b2, b3, b4, b5 := FilterSteps(s, q, b);
  }

  /** The city filter: a truthy `city` binds its value to a placeholder of
      an equality on the city column, and only then is there one. */
  lemma CityFilter(s: Schema, q: PointsQuery)
    ensures var r := BuildPoints(s, q);
            TruthyValue(q.city) <==>
              exists i :: 1 <= i <= |r.params| && Equals(s.city, i) in r.conditions && r.params[i - 1] == PValue(q.city)
  {
    PointsSteps(s, q);
    CityFilterFrom(s, q, AddBounds(s, q, Start(s)));
  }

  /** The FDA filter: a non-empty `fda` list binds the list to a placeholder
      of an `ANY` test on segment 1 of the FDA/FDH column, and only then is
      there one. */
  lemma FdaFilter(s: Schema, q: PointsQuery)
    ensures var r := BuildPoints(s, q);
            |ParseList(q.fda)| > 0 <==>
              exists i :: 1 <= i <= |r.params| && SegmentAny(s.fdaFdh, 1, i) in r.conditions
                          && r.params[i - 1] == PTextList(ParseList(q.fda))
  {
    PointsSteps(s, q);
    FdaFilterFrom(s, q, AddBounds(s, q, Start(s)));
  }

  /** The FDH filter: the same on segment 2 with the `fdh` list. */
  lemma FdhFilter(s: Schema, q: PointsQuery)
    ensures var r := BuildPoints(s, q);
            |ParseList(q.fdh)| > 0 <==>
              exists i :: 1 <= i <= |r.params| && SegmentAny(s.fdaFdh, 2, i) in r.conditions
                          && r.params[i - 1] == PTextList(ParseList(q.fdh))
  {
    PointsSteps(s, q);
    FdhFilterFrom(s, q, AddBounds(s, q, Start(s)));
  }

  /** The status filter: a `status` list with numeric items binds those
      numbers to a placeholder of the `EXISTS` test, and only then is there
      one. */
  lemma StatusFilter(s: Schema, q: PointsQuery)
    ensures var r := BuildPoints(s, q);
            |Numbers(ParseList(q.status))| > 0 <==>
              exists i :: 1 <= i <= |r.params| && StatusExists(StatusRef(s), i) in r.conditions
                          && r.params[i - 1] == PNumList(Numbers(ParseList(q.status)))
  {
    PointsSteps(s, q);
    StatusFilterFrom(s, q, AddBounds(s, q, Start(s)));
  }

  /** The drop filter: a recognised `drop` value adds its condition, and no
      other drop condition ever appears. */
  lemma DropFilter(s: Schema, q: PointsQuery)
    ensures DropCondition(s, q.drop).Some? ==> DropCondition(s, q.drop).value in BuildPoints(s, q).conditions
    ensures forall c :: c in BuildPoints(s, q).conditions && (c.DropIsOne? || c.DropNotOne?) ==>
              DropCondition(s, q.drop) == Some(c)
  {
    assert DropCondition(s, q.drop).Some? ==> DropCondition(s, q.drop).value in BuildPoints(s, q).conditions by {
      PointsSteps(s, q);
      DropFilterFrom(s, q, AddBounds(s, q, Start(s)));
    }
    PointsConditionOrigins(s, q);
  }

  // ---------------------------------------------------------------------------
  // selected columns

  /** Where the point id comes from. */
  datatype IdSource = IdColumn(col: string) | RowNumber

  /** Where the account list comes from. */
  datatype AccountsSource = Aggregated(idCol: string, statuses: set<int>) | NoAccounts

  datatype Selection = Selection(
    id: IdSource, unit: Option<string>, state: Option<string>, zip: Option<string>,
    fdaFdh: Option<string>, drop: Option<string>, accounts: AccountsSource)

  /** An optional column: selected when configured, `NULL` otherwise. */
  function Optional(col: string): Option<string> {
    if col != "" then Some(col) else None
  }

  /** The status ids the account aggregation keeps. */
  const AggregatedStatuses: set<int> := {1, 2, 4, 39, 75}

  /** The `SELECT` list. Without an id column, ids are row numbers and
      addresses carry no accounts. */
  function Select(s: Schema): (sel: Selection)
    ensures sel.id == RowNumber <==> s.idColumn == ""
    ensures sel.accounts == NoAccounts <==> s.idColumn == ""
    ensures sel.accounts.Aggregated? ==> sel.accounts.statuses == AggregatedStatuses
  {
    Selection(
      if s.idColumn != "" then IdColumn(s.idColumn) else RowNumber,
      Optional(s.line2), Optional(s.subdivision), Optional(s.zip),
      Optional(s.fdaFdh), Optional(s.drop),
      if s.idColumn != "" then Aggregated(s.idColumn, AggregatedStatuses) else NoAccounts)
  }

  /** Without an id column every address arrives with no accounts, so the
      map can only show gray or blue: no status rule and no reading can
      apply. */
  lemma NoIdColumnColours(s: Schema, p: Point, entries: seq<Entry>, threshold: real)
    requires p.accounts == []
    ensures Classify(p, entries, threshold) in {Gray, Blue}
  {
  }

  /** The status text the aggregation attaches to a status id. */
  function StatusText(id: int): Option<string> {
    if id == 1 then Some("Active")
    else if id == 2 then Some("Inactive")
    else if id == 4 then Some("Suspended")
    else if id == 39 then Some("Scheduled")
    else if id == 75 then Some("Test ONT")
    else None
  }

  /** An account as the aggregation emits it. */
  function Emitted(accountId: Option<int>, model: Option<string>, value: Option<string>, statusId: int): Account {
    Account(accountId, model, value, Some(statusId), StatusText(statusId))
  }

  /** Server and browser agree: of the aggregated statuses, exactly id 2 is
      inactive and exactly id 4 is suspended, and every emitted account
      carries a status id. */
  lemma EmittedStatusAgrees(accountId: Option<int>, model: Option<string>, value: Option<string>, statusId: int)
    requires statusId in AggregatedStatuses
    ensures IsInactive(Emitted(accountId, model, value, statusId)) <==> statusId == 2
    ensures IsSuspended(Emitted(accountId, model, value, statusId)) <==> statusId == 4
    ensures HasStatusId(Emitted(accountId, model, value, statusId))
  {
    assert Lower("Active") == "active";
    assert Lower("Inactive") == "inactive";
    assert Lower("Suspended") == "suspended";
    assert Lower("Scheduled") == "scheduled";
    assert Lower("Test ONT") == "test ont";
  }

  // ---------------------------------------------------------------------------
  // /fda-options and /fdh-options

  /** The four conditions both option lists start from. */
  function OptionsBaseline(s: Schema): seq<Condition> {
    [NotNull(s.fdaFdh), NotNull(s.lat), NotNull(s.lng), IsTrue(s.serviceable)]
  }

  /** `/fda-options`: the baseline and, for a city, its equality on `$1`. */
  function BuildFdaOptions(s: Schema, city: QueryValue): (r: Built)
    ensures WellNumbered(r)
    ensures TruthyValue(city) ==> r == Built(OptionsBaseline(s) + [Equals(s.city, 1)], [PValue(city)])
    ensures !TruthyValue(city) ==> r == Built(OptionsBaseline(s), [])
  {
    var b0 := Built(OptionsBaseline(s), []);
    Seqs.FlatMapEmpty(b0.conditions, Placeholders);
    Seqs.FlatMapEmpty(b0.conditions, Expects);
    if TruthyValue(city) then Push(b0, Equals(s.city, 1), [PValue(city)]) else b0
  }

  /** `/fdh-options`: the same, then the FDA list on the next placeholder. */
  function BuildFdhOptions(s: Schema, city: QueryValue, fda: QueryValue): (r: Built)
    ensures WellNumbered(r)
    ensures |r.conditions| >= 4 && r.conditions[..4] == OptionsBaseline(s)
    ensures Extends(BuildFdaOptions(s, city), r)
    ensures |ParseList(fda)| == 0 ==> r == BuildFdaOptions(s, city)
    ensures |r.params| == Flag(TruthyValue(city)) + Flag(|ParseList(fda)| > 0)
    ensures |ParseList(fda)| > 0 ==>
              r.conditions[|r.conditions| - 1] == SegmentAny(s.fdaFdh, 1, |r.params|)
              && r.params[|r.params| - 1] == PTextList(ParseList(fda))
    ensures |ParseList(fda)| > 0 ==>
              r.conditions == BuildFdaOptions(s, city).conditions + [SegmentAny(s.fdaFdh, 1, |r.params|)]
              && r.params == BuildFdaOptions(s, city).params + [PTextList(ParseList(fda))]
  {
    AddSegment(s, 1, fda, BuildFdaOptions(s, city))
  }

  /** `rows.map(r => r.fda).filter(Boolean)`: the non-empty values, in row
      order. */
  function OptionValues(rows: seq<Option<string>>): (r: seq<string>)
    ensures forall k :: 0 <= k < |r| ==> r[k] != "" && Some(r[k]) in rows
    ensures forall v :: v != "" && Some(v) in rows ==> v in r
  {
    if |rows| == 0 then []
    else
      var rest := OptionValues(rows[1..]);
      assert forall v :: Some(v) in rows ==> rows[0] == Some(v) || Some(v) in rows[1..];
      if rows[0].Some? && rows[0].value != "" then [rows[0].value] + rest else rest
  }

  /** The option values keep the rows' order. */
  lemma {:induction false} OptionValuesInOrder(rows: seq<Option<string>>)
    ensures Seqs.IsSubseq(Somes(OptionValues(rows)), rows)
  {
    if |rows| > 0 {
      OptionValuesInOrder(rows[1..]);
      var rest := OptionValues(rows[1..]);
      if rows[0].Some? && rows[0].value != "" {
        var r := [rows[0].value] + rest;
        assert Somes(r)[0] == rows[0] && Somes(r)[1..] == Somes(rest);
      } else {
        Seqs.SubseqOfTail(Somes(rest), rows);
      }
    }
  }

  /** The option values hold every occurrence of a non-empty value: one
      value per row that carries one. */
  lemma {:induction false} OptionValuesCount(rows: seq<Option<string>>, v: string)
    ensures multiset(OptionValues(rows))[v] == if v != "" then multiset(rows)[Some(v)] else 0
  {
    if |rows| > 0 {
      OptionValuesStep(rows, v);
      assert multiset(rows)[Some(v)] == multiset([rows[0]])[Some(v)] + multiset(rows[1..])[Some(v)] by {
        assert rows == [rows[0]] + rows[1..];
      }
      OptionValuesCount(rows[1..], v);
    }
  }

  lemma OptionValuesStep(rows: seq<Option<string>>, v: string)
    requires |rows| > 0
    ensures multiset(OptionValues(rows))[v]
            == (if v != "" && rows[0] == Some(v) then 1 else 0) + multiset(OptionValues(rows[1..]))[v]
  {
    var head := if rows[0].Some? && rows[0].value != "" then [rows[0].value] else [];
    assert OptionValues(rows) == head + OptionValues(rows[1..]);
  }

  /** The values as they appear in the rows. */
  function Somes(vs: seq<string>): (r: seq<Option<string>>)
    ensures |r| == |vs|
  {
    seq(|vs|, k requires 0 <= k < |vs| => Some(vs[k]))
  }
}
