/** The ids and the summary of a done-criteria evaluation (`src/host/done_criteria/validate.ts`,
    `src/host/done_criteria/evaluate.ts`). */
module DoneCriteria {
  import opened Prelude
  import opened Extras

  // ---- ids ----

  const PREFIX := "check_"

  /** The pattern that is reserved for automatic ids: the prefix and at least one digit. */
  predicate IsReserved(id: string) {
    |id| > |PREFIX| && id[..|PREFIX|] == PREFIX && AllDigits(id[|PREFIX|..])
  }

  /** `padStart(3, "0")` */
  function Padded(s: string): string {
    if |s| >= 3 then s else if |s| == 2 then "0" + s else if |s| == 1 then "00" + s else "000"
  }

  /** The id of the check at position `n` (counted from 1) if it has none of its own. */
  function AutoId(n: nat): string {
    PREFIX + Padded(Decimal(n))
  }

  lemma {:induction false} LeadingZero(s: string)
    requires AllDigits(s)
    ensures AllDigits("0" + s) && ValueOf("0" + s) == ValueOf(s)
  {
    if s == [] {
      assert "0" + s == "0" && "0"[..0] == "";
    } else {
      var n := |s| - 1;
      LeadingZero(s[..n]);
      assert ("0" + s)[..|s|] == "0" + s[..n];
    }
  }

  lemma PaddedValue(s: string)
    requires AllDigits(s) && s != []
    ensures AllDigits(Padded(s)) && Padded(s) != [] && ValueOf(Padded(s)) == ValueOf(s)
  {
    LeadingZero(s);
    LeadingZero("0" + s);
    assert "00" + s == "0" + ("0" + s);
  }

  /** Automatic ids are reserved, and different positions get different ones, at any length. */
  lemma AutoIdsDiffer(a: nat, b: nat)
    ensures IsReserved(AutoId(a))
    ensures AutoId(a) == AutoId(b) ==> a == b
  {
    AutoIdTail(a);
    AutoIdTail(b);
  }

  lemma AutoIdTail(n: nat)
    ensures IsReserved(AutoId(n))
    ensures AutoId(n)[|PREFIX|..] == Padded(Decimal(n)) && AllDigits(Padded(Decimal(n))) && ValueOf(Padded(Decimal(n))) == n
  {
    DecimalValue(n);
    PaddedValue(Decimal(n));
  }

  // ---- validation ----

  /** The id of a check, if the user gave one. */
  type Id = Option<string>

  /** Explicit ids are not empty, none is reserved, and none is used twice. */
  predicate IdsAccepted(ids: seq<Id>) {
    && (forall i :: 0 <= i < |ids| && ids[i].Some? ==> ids[i].value != "" && !IsReserved(ids[i].value))
    && (forall i, j :: 0 <= i < j < |ids| && ids[i].Some? ==> ids[i] != ids[j])
  }

  /** The id rules of `validateParsedConfig`; a list without checks is rejected. */
  method ValidateIds(ids: seq<Id>) returns (ok: bool)
    ensures ok <==> ids != [] && IdsAccepted(ids)
  {
    if |ids| == 0 { return false; }
    var seenIds: set<string> := {};
    for idx := 0 to |ids|
      invariant seenIds == set i | 0 <= i < idx && ids[i].Some? :: ids[i].value
      invariant IdsAccepted(ids[..idx])
    {
      assert forall i :: 0 <= i < idx ==> ids[..idx][i] == ids[i];
      if ids[idx].Some? {
        if |ids[idx].value| == 0 { return false; }
        if IsReserved(ids[idx].value) { return false; }
        if ids[idx].value in seenIds {
          assert exists i :: 0 <= i < idx && ids[i] == ids[idx];
          return false;
        }
        seenIds := seenIds + {ids[idx].value};
      }
      assert forall i :: 0 <= i < idx + 1 ==> ids[..idx + 1][i] == ids[i];
    }
    assert ids[..|ids|] == ids;
    return true;
  }

  // ---- evaluation ----

  datatype Verdict = Pass | Fail | Error

  datatype CheckOutcome = CheckOutcome(checkId: string, result: Verdict)

  datatype Overall = AllPass | SomeFail

  datatype Outcome = Outcome(overall: Overall, checks: seq<CheckOutcome>, total: nat, passed: nat, failed: nat, errored: nat)

  /** The id under which the check at index `i` is reported; an empty id counts as none. */
  function IdAt(ids: seq<Id>, i: nat): string
    requires i < |ids|
  {
    if ids[i].Some? && ids[i].value != "" then ids[i].value else AutoId(i + 1)
  }

  function CountOf(checks: seq<CheckOutcome>, v: Verdict): nat {
    if checks == [] then 0 else CountOf(checks[..|checks| - 1], v) + (if checks[|checks| - 1].result == v then 1 else 0)
  }

  /** `filter(...).length` */
  method Count(checks: seq<CheckOutcome>, v: Verdict) returns (n: nat)
    ensures n == CountOf(checks, v)
  {
    n := 0;
    for i := 0 to |checks|
      invariant n == CountOf(checks[..i], v)
    {
      assert checks[..i + 1][..i] == checks[..i];
      if checks[i].result == v { n := n + 1; }
    }
    assert checks[..|checks|] == checks;
  }

  method Aggregate(checks: seq<CheckOutcome>) returns (o: Outcome)
    ensures o.checks == checks && o.total == |checks|
    ensures o.passed == CountOf(checks, Pass) && o.failed == CountOf(checks, Fail)
    ensures o.errored == CountOf(checks, Error) && o.passed + o.failed + o.errored == o.total
    ensures o.overall.AllPass? <==> checks != [] && AllChecksPass(checks)
  {
    var passed := Count(checks, Pass);
    var failed := Count(checks, Fail);
    var errored := Count(checks, Error);
    CountsAddUp(checks);
    AllPassIff(checks);
    o := Outcome(if passed == |checks| && |checks| > 0 then AllPass else SomeFail, checks, |checks|, passed, failed, errored);
  }

  /** The first `n` checks are reported under their ids with their results. */
  predicate ReportedUpTo(ids: seq<Id>, results: seq<Verdict>, checks: seq<CheckOutcome>, n: nat)
    requires n <= |ids| == |results|
  {
    |checks| == n && forall i :: 0 <= i < n ==> checks[i] == CheckOutcome(IdAt(ids, i), results[i])
  }

  /** `results` are the outcomes of the single checks (an exception counts as an error). */
  method EvaluateOutcome(ids: seq<Id>, results: seq<Verdict>) returns (o: Outcome)
    requires |results| == |ids|
    ensures ReportedUpTo(ids, results, o.checks, |ids|) && o.total == |ids|
    ensures o.passed == CountOf(o.checks, Pass) && o.failed == CountOf(o.checks, Fail)
    ensures o.errored == CountOf(o.checks, Error) && o.passed + o.failed + o.errored == o.total
    ensures o.overall.AllPass? <==> ids != [] && AllResultsPass(results)
    ensures IdsAccepted(ids) ==> CheckIdsDiffer(o.checks)
  {
    var checks: seq<CheckOutcome> := [];
    for idx := 0 to |ids|
      invariant ReportedUpTo(ids, results, checks, idx)
    {
      var checkId := if ids[idx].Some? && |ids[idx].value| > 0 then ids[idx].value else AutoId(idx + 1);
      checks := checks + [CheckOutcome(checkId, results[idx])];
    }
    o := Aggregate(checks);
    ResultsPassIff(ids, results, checks);
    if IdsAccepted(ids) { AllIdsDiffer(ids, results, checks); }
  }

  predicate AllResultsPass(results: seq<Verdict>) {
    forall i :: 0 <= i < |results| ==> results[i].Pass?
  }

  predicate AllChecksPass(checks: seq<CheckOutcome>) {
    forall i :: 0 <= i < |checks| ==> checks[i].result.Pass?
  }

  predicate CheckIdsDiffer(checks: seq<CheckOutcome>) {
    forall i, j :: 0 <= i < j < |checks| ==> checks[i].checkId != checks[j].checkId
  }

  lemma ResultsPassIff(ids: seq<Id>, results: seq<Verdict>, checks: seq<CheckOutcome>)
    requires |ids| == |results| && ReportedUpTo(ids, results, checks, |ids|)
    ensures AllChecksPass(checks) <==> AllResultsPass(results)
  {
    forall i | 0 <= i < |ids| ensures checks[i].result == results[i] {}
  }

  lemma {:induction false} CountsAddUp(checks: seq<CheckOutcome>)
    ensures CountOf(checks, Pass) + CountOf(checks, Fail) + CountOf(checks, Error) == |checks|
  {
    if checks != [] { CountsAddUp(checks[..|checks| - 1]); }
  }

  lemma {:induction false} AllPassIff(checks: seq<CheckOutcome>)
    ensures CountOf(checks, Pass) <= |checks|
    ensures CountOf(checks, Pass) == |checks| <==> forall i :: 0 <= i < |checks| ==> checks[i].result.Pass?
  {
    if checks != [] {
      var n := |checks| - 1;
      AllPassIff(checks[..n]);
      assert forall i :: 0 <= i < n ==> checks[..n][i] == checks[i];
    }
  }

  /** For accepted ids, explicit, automatic and empty ones mixed, all reported ids are different. */
  lemma IdsDiffer(ids: seq<Id>, i: nat, j: nat)
    requires IdsAccepted(ids) && i < j < |ids|
    ensures IdAt(ids, i) != IdAt(ids, j)
  {
    AutoIdsDiffer(i + 1, j + 1);
    AutoIdsDiffer(j + 1, i + 1);
  }

  lemma AllIdsDiffer(ids: seq<Id>, results: seq<Verdict>, checks: seq<CheckOutcome>)
    requires IdsAccepted(ids) && |ids| == |results| && ReportedUpTo(ids, results, checks, |ids|)
    ensures CheckIdsDiffer(checks)
  {
    forall i, j | 0 <= i < j < |checks| ensures checks[i].checkId != checks[j].checkId { IdsDiffer(ids, i, j); }
  }

  // ---- in plain terms ----

  /** The text of an automatic id. */
  lemma AutoIdText(n: nat)
    ensures n < 10 ==> AutoId(n) == "check_00" + [Digit(n)]
    ensures 10 <= n < 100 ==> AutoId(n) == "check_0" + [Digit(n / 10)] + [Digit(n % 10)]
    ensures n >= 100 ==> AutoId(n) == "check_" + Decimal(n)
  {
    if n >= 100 {
      LongDecimal(n);
    } else if n >= 10 {
      ShortDecimal(n);
    }
  }

  /** Under which id a check is reported: its own, or its position counted from 1. */
  lemma IdAtIs(ids: seq<Id>, i: nat)
    requires i < |ids|
    ensures ids[i].Some? && ids[i].value != "" ==> IdAt(ids, i) == ids[i].value
    ensures (ids[i].None? || ids[i].value == "") && i < 9 ==> IdAt(ids, i) == "check_00" + [Digit(i + 1)]
    ensures (ids[i].None? || ids[i].value == "") && i >= 99 ==> IdAt(ids, i) == "check_" + Decimal(i + 1)
  {
    AutoIdText(i + 1);
  }

  lemma ShortDecimal(n: nat)
    requires 10 <= n < 100
    ensures Decimal(n) == [Digit(n / 10)] + [Digit(n % 10)] && Padded(Decimal(n)) == "0" + [Digit(n / 10)] + [Digit(n % 10)]
  {
    assert Decimal(n / 10) == [Digit(n / 10)];
  }

  lemma LongDecimal(n: nat)
    requires n >= 100
    ensures |Decimal(n)| >= 3
  {
    MediumDecimal(n / 10);
    assert Decimal(n) == Decimal(n / 10) + [Digit(n % 10)];
  }

  lemma MediumDecimal(n: nat)
    requires n >= 10
    ensures |Decimal(n)| >= 2
  {
    assert Decimal(n) == Decimal(n / 10) + [Digit(n % 10)];
  }

  /** The checks with a given result. */
  function Positions(checks: seq<CheckOutcome>, v: Verdict): set<nat> {
    set i | 0 <= i < |checks| && checks[i].result == v
  }

  /** A count is the number of checks with that result. */
  lemma {:induction false} CountIs(checks: seq<CheckOutcome>, v: Verdict)
    ensures CountOf(checks, v) == |Positions(checks, v)|
  {
    if checks != [] {
      var n := |checks| - 1;
      CountIs(checks[..n], v);
      if checks[n].result == v {
        assert Positions(checks, v) == Positions(checks[..n], v) + {n};
      } else {
        assert Positions(checks, v) == Positions(checks[..n], v);
      }
    }
  }

  /** The ids that a user may not choose: the prefix with nothing but digits behind it. */
  lemma ReservedIff(id: string)
    ensures IsReserved(id) <==>
      |id| >= 7 && id[..6] == "check_" && forall i :: 6 <= i < |id| ==> '0' <= id[i] <= '9'
  {
    if |id| >= 7 && id[..6] == "check_" {
      forall i | 0 <= i < |id| - 6 ensures id[6..][i] == id[i + 6] {}
      if forall i :: 6 <= i < |id| ==> '0' <= id[i] <= '9' {
        forall i | 0 <= i < |id[6..]| ensures IsDigit(id[6..][i]) { assert '0' <= id[i + 6] <= '9'; }
      }
      if AllDigits(id[6..]) {
        forall i | 6 <= i < |id| ensures '0' <= id[i] <= '9' { assert IsDigit(id[6..][i - 6]); }
      }
    }
  }
}
