/**
 * The address-status classifier (`markerColorForPoint`): a fixed-precedence
 * ladder over an address's accounts, its drop state and the optic readings
 * fetched so far.
 */
module Classifier {
  import opened Wrappers
  import opened Text
  import opened Json
  import opened Identifier

  /** An account as the inventory query aggregates it per address. */
  datatype Account = Account(
    accountId: Option<int>,
    inventoryModel: Option<string>,
    value: Option<string>,
    statusId: Option<int>,
    statusText: Option<string>)

  /** A service address as the browser holds it after loading. */
  datatype Point = Point(dropCompleted: bool, accounts: seq<Account>, fdaFdh: Option<string>)

  /** The seven marker colours, one per health classification:
      Black = Inactive, Purple = Suspended, Gray = drop incomplete,
      Blue = drop complete without an account status, Red = offline,
      Yellow = low light, Green = online. */
  datatype Color = Black | Purple | Gray | Blue | Red | Yellow | Green

  /** The colour strings the browser compares. */
  function Hex(c: Color): string {
    match c
    case Black => "#111827"
    case Purple => "#9333ea"
    case Gray => "#9ca3af"
    case Blue => "#2563eb"
    case Red => "#dc2626"
    case Yellow => "#facc15"
    case Green => "#16a34a"
  }

  lemma HexInjective(c: Color, d: Color)
    requires Hex(c) == Hex(d)
    ensures c == d
  {
  }

  /** Low-light threshold of the main classifier, in dBm. */
  const AppLowLight: real := -24.9

  predicate IsInactive(a: Account) {
    a.statusId == Some(2) || Lower(a.statusText.GetOr("")) == "inactive"
  }

  predicate IsSuspended(a: Account) {
    a.statusId == Some(4) || Lower(a.statusText.GetOr("")) == "suspended"
  }

  /** `acct.account_status_id` is truthy. */
  predicate HasStatusId(a: Account) {
    a.statusId.Some? && a.statusId.value != 0
  }

  predicate AnyInactive(accts: seq<Account>) {
    exists i :: 0 <= i < |accts| && IsInactive(accts[i])
  }

  predicate AnySuspended(accts: seq<Account>) {
    exists i :: 0 <= i < |accts| && IsSuspended(accts[i])
  }

  predicate AnyStatus(accts: seq<Account>) {
    exists i :: 0 <= i < |accts| && HasStatusId(accts[i])
  }

  /** The account's matched reading carries an `rx-power` field. */
  predicate HasReading(a: Account, entries: seq<Entry>) {
    var m := FindLightMatch(entries, a.value);
    m.Some? && "rx-power" in m.value
  }

  /** The account's matched reading has a numeric `rx-power` at or below the
      threshold. */
  predicate LowReading(a: Account, entries: seq<Entry>, threshold: real) {
    var m := FindLightMatch(entries, a.value);
    m.Some? && "rx-power" in m.value
    && var rx := ToNumber(m.value["rx-power"]); rx.Some? && rx.value <= threshold
  }

  predicate AnyReading(accts: seq<Account>, entries: seq<Entry>) {
    exists i :: 0 <= i < |accts| && HasReading(accts[i], entries)
  }

  predicate AnyLow(accts: seq<Account>, entries: seq<Entry>, threshold: real) {
    exists i :: 0 <= i < |accts| && LowReading(accts[i], entries, threshold)
  }

  /** The account loop of the classifier: `(hasLight, lowLight)`, stopping at
      the first account whose reading is low. `has` and `low` say whether an
      account's matched reading carries an `rx-power` and whether that value
      is numeric and at or below the threshold. */
  function ScanLight(accts: seq<Account>, has: Account -> bool, low: Account -> bool): (bool, bool) {
    if |accts| == 0 then (false, false)
    else if has(accts[0]) && low(accts[0]) then (true, true)
    else
      var rest := ScanLight(accts[1..], has, low);
      (has(accts[0]) || rest.0, rest.1)
  }

  /** Stopping early loses nothing: the loop finds a reading exactly when some
      account has one, and a low reading exactly when some account has one. */
  lemma {:induction false} ScanLightSpec(accts: seq<Account>, has: Account -> bool, low: Account -> bool)
    requires forall a :: low(a) ==> has(a)
    ensures ScanLight(accts, has, low).0 <==> exists i :: 0 <= i < |accts| && has(accts[i])
    ensures ScanLight(accts, has, low).1 <==> exists i :: 0 <= i < |accts| && low(accts[i])
  {
    if |accts| > 0 {
      ScanLightSpec(accts[1..], has, low);
      if exists i :: 0 <= i < |accts[1..]| && has(accts[1..][i]) {
        var i :| 0 <= i < |accts[1..]| && has(accts[1..][i]);
        assert has(accts[i + 1]);
      }
      if exists i :: 0 <= i < |accts[1..]| && low(accts[1..][i]) {
        var i :| 0 <= i < |accts[1..]| && low(accts[1..][i]);
        assert low(accts[i + 1]);
      }
      if (exists i :: 0 <= i < |accts| && has(accts[i])) && !has(accts[0]) {
        var i :| 0 <= i < |accts| && has(accts[i]);
        assert has(accts[1..][i - 1]);
      }
      if (exists i :: 0 <= i < |accts| && low(accts[i])) && !low(accts[0]) {
        var i :| 0 <= i < |accts| && low(accts[i]);
        assert low(accts[1..][i - 1]);
      }
    }
  }

  /** The loop is only entered with accounts and readings present. */
  function LightFlags(p: Point, entries: seq<Entry>, threshold: real): (bool, bool) {
    if |p.accounts| > 0 && |entries| > 0
    then ScanLight(p.accounts, a => HasReading(a, entries), a => LowReading(a, entries, threshold))
    else (false, false)
  }

  /** `markerColorForPoint`, with the low-light threshold as a parameter.
      The contract gives each colour's exact condition: inactive beats
      suspended, which beats an incomplete drop, which beats a completed drop
      without account status; only then do readings decide. */
  function Classify(p: Point, entries: seq<Entry>, threshold: real): (c: Color)
    ensures c == Black <==> AnyInactive(p.accounts)
    ensures c == Purple <==> !AnyInactive(p.accounts) && AnySuspended(p.accounts)
    ensures c == Gray <==> !AnyInactive(p.accounts) && !AnySuspended(p.accounts) && !p.dropCompleted
    ensures c == Blue <==> !AnyInactive(p.accounts) && !AnySuspended(p.accounts) && p.dropCompleted
                           && !AnyStatus(p.accounts)
    ensures c == Red <==> !AnyInactive(p.accounts) && !AnySuspended(p.accounts) && p.dropCompleted
                          && AnyStatus(p.accounts) && |entries| > 0 && !AnyReading(p.accounts, entries)
    ensures c == Yellow <==> !AnyInactive(p.accounts) && !AnySuspended(p.accounts) && p.dropCompleted
                             && AnyStatus(p.accounts) && |entries| > 0 && AnyLow(p.accounts, entries, threshold)
    ensures c == Green <==> !AnyInactive(p.accounts) && !AnySuspended(p.accounts) && p.dropCompleted
                            && AnyStatus(p.accounts)
                            && (|entries| == 0 || (AnyReading(p.accounts, entries) && !AnyLow(p.accounts, entries, threshold)))
  {
    ScanLightSpec(p.accounts, a => HasReading(a, entries), a => LowReading(a, entries, threshold));
    var flags := LightFlags(p, entries, threshold);
    var hasLight := flags.0;
    var lowLight := flags.1;
    if AnyInactive(p.accounts) then Black
    else if AnySuspended(p.accounts) then Purple
    else if !p.dropCompleted then Gray
    else if p.dropCompleted && !AnyStatus(p.accounts) then Blue
    else if |entries| > 0 then
      (if !hasLight then Red else if lowLight then Yellow else Green)
    else Green
  }

  /** Account state overrides everything else: once an address is black,
      purple, gray or blue, no set of readings changes its colour. */
  lemma ReadingsCannotOverride(p: Point, e1: seq<Entry>, e2: seq<Entry>, threshold: real)
    requires Classify(p, e1, threshold) in {Black, Purple, Gray, Blue}
    ensures Classify(p, e2, threshold) == Classify(p, e1, threshold)
  {
  }

  /** An inactive account makes the address black whatever the drop state,
      the other accounts and the readings. */
  lemma InactiveWins(p: Point, a: Account, entries: seq<Entry>, threshold: real)
    requires IsInactive(a)
    ensures Classify(p.(accounts := p.accounts + [a]), entries, threshold) == Black
  {
    var q := p.(accounts := p.accounts + [a]);
    assert IsInactive(q.accounts[|p.accounts|]);
  }

  /** A lower threshold can only turn yellow into green, never the reverse. */
  lemma {:induction false} LowerThresholdFewerLow(p: Point, entries: seq<Entry>, t1: real, t2: real)
    requires t1 <= t2
    requires Classify(p, entries, t1) == Yellow
    ensures Classify(p, entries, t2) == Yellow
  {
    var i :| 0 <= i < |p.accounts| && LowReading(p.accounts[i], entries, t1);
    assert LowReading(p.accounts[i], entries, t2);
  }
}
