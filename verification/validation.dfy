/**
 * The validation coordinator: the flat parameter list the validator is
 * given for a key slot, and the bookkeeping that combines the issues a
 * validation pass collects with the issues a form reports by hand.
 */
module Validation {
  import opened Wrappers
  import opened Json

  // ---------------------------------------------------------------------
  // _normalize_params

  /**
   * `_normalize_params`: `None` gives nothing; lists and tuples are
   * flattened item by item; a dict stands for its string "value", else for
   * its string "name" (as a dict holding only that name), else for its
   * non-`None` "params"; anything else stands for itself.
   */
  function Normalized(params: Json): (r: seq<Json>)
    decreases params, 1
  {
    match params
    case JNull => []
    case JArr(items) => NormalizedItems(params, items)
    case JObj(fields) =>
      if StrField(params, "value").Some? then [JStr(StrField(params, "value").value)]
      else if StrField(params, "name").Some? then [JObj([("name", JStr(StrField(params, "name").value))])]
      else if Get(fields, "params").Some? && !Get(fields, "params").value.JNull? then
        GetBelow(params, fields, "params");
        Normalized(Get(fields, "params").value)
      else [params]
    case _ => [params]
  }

  /** The normalised items of a list, one after the other. */
  function NormalizedItems(ghost parent: Json, items: seq<Json>): (r: seq<Json>)
    requires forall k :: 0 <= k < |items| ==> items[k] < parent
    decreases parent, 0, |items|
  {
    if items == [] then [] else NormalizedItems(parent, items[..|items| - 1]) + Normalized(items[|items| - 1])
  }

  /** A value found under a key of a dict is smaller than any value holding all of the dict's values. */
  lemma {:induction false} GetBelow(parent: Json, fields: seq<(string, Json)>, key: string)
    requires forall k :: 0 <= k < |fields| ==> fields[k].1 < parent
    requires Get(fields, key).Some?
    ensures Get(fields, key).value < parent
    decreases |fields|
  {
    if fields[0].0 != key {
      assert forall k :: 0 <= k < |fields[1..]| ==> fields[1..][k] == fields[k + 1];
      GetBelow(parent, fields[1..], key);
    }
  }

  /** The `for item in params: normalized.extend(...)` loop, recursing into each item. */
  method NormalizeParams(params: Json) returns (r: seq<Json>)
    ensures r == Normalized(params)
    decreases params
  {
    match params
    case JNull => return [];
    case JArr(items) =>
      var normalized: seq<Json> := [];
      var i := 0;
      while i < |items|
        invariant 0 <= i <= |items|
        invariant normalized == NormalizedItems(params, items[..i])
      {
        var more := NormalizeParams(items[i]);
        assert items[..i + 1][..i] == items[..i];
        normalized := normalized + more;
        i := i + 1;
      }
      assert items[..i] == items;
      return normalized;
    case JObj(fields) =>
      var value := StrField(params, "value");
      if value.Some? {
        return [JStr(value.value)];
      }
      var name := StrField(params, "name");
      if name.Some? {
        return [JObj([("name", JStr(name.value))])];
      }
      var nested := Get(fields, "params");
      if nested.Some? && !nested.value.JNull? {
        GetBelow(params, fields, "params");
        r := NormalizeParams(nested.value);
        return;
      }
      return [params];
    case _ => return [params];
  }

  /**
   * What normalisation leaves: neither `None` nor a list, and, for a dict,
   * one that normalises to itself.
   */
  predicate Flat(x: Json) {
    !x.JNull? && !x.JArr? && (x.JObj? ==> Normalized(x) == [x])
  }

  /** A normalised parameter list is flat: no `None`, no nested list, nothing left to unwrap. */
  lemma {:induction false} NormalizedFlat(params: Json)
    ensures forall k :: 0 <= k < |Normalized(params)| ==> Flat(Normalized(params)[k])
    decreases params, 1
  {
    match params
    case JNull =>
    case JArr(items) => NormalizedItemsFlat(params, items);
    case JObj(fields) =>
      if StrField(params, "value").None? && StrField(params, "name").Some? {
        var named: seq<(string, Json)> := [("name", JStr(StrField(params, "name").value))];
        assert Get(named, "value") == None by {
          assert named[1..] == [];
        }
      } else if StrField(params, "value").None? {
        var nested := Get(fields, "params");
        if nested.Some? && !nested.value.JNull? {
          GetBelow(params, fields, "params");
          NormalizedFlat(nested.value);
        }
      }
    case _ =>
  }

  lemma {:induction false} NormalizedItemsFlat(parent: Json, items: seq<Json>)
    requires forall k :: 0 <= k < |items| ==> items[k] < parent
    ensures forall k :: 0 <= k < |NormalizedItems(parent, items)| ==> Flat(NormalizedItems(parent, items)[k])
    decreases parent, 0, |items|
  {
    if items != [] {
      var n := |items| - 1;
      NormalizedItemsFlat(parent, items[..n]);
      NormalizedFlat(items[n]);
      FlatConcat(NormalizedItems(parent, items[..n]), Normalized(items[n]));
    }
  }

  lemma FlatConcat(a: seq<Json>, b: seq<Json>)
    requires forall k :: 0 <= k < |a| ==> Flat(a[k])
    requires forall k :: 0 <= k < |b| ==> Flat(b[k])
    ensures forall k :: 0 <= k < |a + b| ==> Flat((a + b)[k])
  {
    forall k | 0 <= k < |a + b|
      ensures Flat((a + b)[k])
    {
      if k < |a| {
        assert (a + b)[k] == a[k];
      } else {
        assert (a + b)[k] == b[k - |a|];
      }
    }
  }

  /** A flat value normalises to itself. */
  lemma FlatFixed(x: Json)
    requires Flat(x)
    ensures Normalized(x) == [x]
  {
  }

  /** A list of flat values normalises to itself. */
  lemma {:induction false} FlatListFixed(items: seq<Json>)
    requires forall k :: 0 <= k < |items| ==> Flat(items[k])
    ensures Normalized(JArr(items)) == items
  {
    FlatItemsFixed(JArr(items), items);
  }

  lemma {:induction false} FlatItemsFixed(parent: Json, items: seq<Json>)
    requires forall k :: 0 <= k < |items| ==> items[k] < parent
    requires forall k :: 0 <= k < |items| ==> Flat(items[k])
    ensures NormalizedItems(parent, items) == items
    decreases |items|
  {
    if items != [] {
      var n := |items| - 1;
      FlatItemsFixed(parent, items[..n]);
      FlatFixed(items[n]);
      assert items[..n] + [items[n]] == items;
    }
  }

  /** Normalising twice is normalising once: the validator's input is already normal. */
  lemma NormalizedIdempotent(params: Json)
    ensures Normalized(JArr(Normalized(params))) == Normalized(params)
  {
    NormalizedFlat(params);
    FlatListFixed(Normalized(params));
  }

  /** Flattening distributes over joining two parameter lists. */
  lemma {:induction false} NormalizedConcat(a: seq<Json>, b: seq<Json>)
    ensures Normalized(JArr(a + b)) == Normalized(JArr(a)) + Normalized(JArr(b))
    decreases |b|
  {
    if b == [] {
      assert a + b == a;
    } else {
      var n := |b| - 1;
      NormalizedConcat(a, b[..n]);
      assert (a + b)[..|a + b| - 1] == a + b[..n];
      NormalizedItemsParent(JArr(a + b), JArr(a + b[..n]), a + b[..n]);
      NormalizedItemsParent(JArr(b), JArr(b[..n]), b[..n]);
    }
  }

  /** The ghost parent of a list's items only bounds the recursion; it does not change the result. */
  lemma {:induction false} NormalizedItemsParent(p: Json, q: Json, items: seq<Json>)
    requires forall k :: 0 <= k < |items| ==> items[k] < p && items[k] < q
    ensures NormalizedItems(p, items) == NormalizedItems(q, items)
    decreases |items|
  {
    if items != [] {
      NormalizedItemsParent(p, q, items[..|items| - 1]);
    }
  }

  // ---------------------------------------------------------------------
  // ValidationCoordinator

  /** `ValidationSummary`. */
  datatype ValidationSummary = ValidationSummary(isValid: bool, issueCount: int)

  /** A summary is valid exactly when it counts no issue. */
  predicate Consistent(s: ValidationSummary) {
    s.issueCount >= 0 && (s.isValid <==> s.issueCount == 0)
  }

  /** The summary of a pass that collected `collected` issues while a form reports `manual` more. */
  function RunSummary(collected: nat, manual: nat): (s: ValidationSummary)
    ensures Consistent(s)
    ensures s.isValid <==> collected == 0 && manual == 0
    ensures s.issueCount >= manual
  {
    ValidationSummary(collected + manual == 0, collected + manual)
  }

  /** The count `record_manual_issues` keeps: at least one. */
  function ManualCount(issueCount: int): (r: nat)
    ensures r >= 1
    ensures issueCount >= 1 ==> r == issueCount
    ensures issueCount < 1 ==> r == 1
  {
    if issueCount > 1 then issueCount else 1
  }

  /**
   * The coordinator's state. The debounce timer and the running task are
   * reduced to whether each is pending; `posted` is the log of
   * `ValidationCompleted` messages sent.
   */
  class ValidationCoordinator {
    var debounceMs: nat
    var timerArmed: bool
    var runPending: bool
    var manualIssueCount: nat
    var lastSummary: ValidationSummary
    var posted: seq<ValidationSummary>

    /** Every summary it holds or has sent is consistent, and while a form reports issues the last one is invalid. */
    ghost predicate Valid()
      reads this
    {
      && Consistent(lastSummary)
      && (forall k :: 0 <= k < |posted| ==> Consistent(posted[k]))
      && (manualIssueCount > 0 ==> !lastSummary.isValid)
    }

    /** A negative debounce counts as none. */
    constructor (debounceMs: int)
      ensures Valid()
      ensures this.debounceMs == (if debounceMs > 0 then debounceMs else 0)
      ensures !timerArmed && !runPending && manualIssueCount == 0
      ensures lastSummary == ValidationSummary(true, 0) && posted == []
    {
      this.debounceMs := if debounceMs > 0 then debounceMs else 0;
      timerArmed := false;
      runPending := false;
      manualIssueCount := 0;
      lastSummary := ValidationSummary(true, 0);
      posted := [];
    }

    /** `begin_debounced_validation`: any armed timer is replaced by a new one. */
    method BeginDebouncedValidation()
      modifies this
      ensures timerArmed
      ensures runPending == old(runPending) && manualIssueCount == old(manualIssueCount)
      ensures lastSummary == old(lastSummary) && posted == old(posted) && debounceMs == old(debounceMs)
    {
      timerArmed := true;
    }

    /** `cancel`: neither timer nor task stays pending. */
    method Cancel()
      requires Valid()
      modifies this
      ensures Valid()
      ensures !timerArmed && !runPending
      ensures manualIssueCount == old(manualIssueCount) && lastSummary == old(lastSummary)
      ensures posted == old(posted) && debounceMs == old(debounceMs)
    {
      timerArmed := false;
      runPending := false;
    }

    /** `publish_last_summary`: the cached summary is sent again. */
    method PublishLastSummary()
      requires Valid()
      modifies this
      ensures Valid()
      ensures posted == old(posted) + [lastSummary]
      ensures lastSummary == old(lastSummary) && manualIssueCount == old(manualIssueCount)
      ensures timerArmed == old(timerArmed) && runPending == old(runPending) && debounceMs == old(debounceMs)
    {
      posted := posted + [lastSummary];
    }

    /** `_publish_summary`: the summary becomes the cached one and is sent. */
    method PublishSummary(summary: ValidationSummary)
      requires forall k :: 0 <= k < |posted| ==> Consistent(posted[k])
      requires Consistent(summary)
      requires manualIssueCount > 0 ==> !summary.isValid
      modifies this
      ensures Valid()
      ensures lastSummary == summary && posted == old(posted) + [summary]
      ensures manualIssueCount == old(manualIssueCount)
      ensures timerArmed == old(timerArmed) && runPending == old(runPending) && debounceMs == old(debounceMs)
    {
      lastSummary := summary;
      posted := posted + [summary];
    }

    /** `record_manual_issues`: the layout is marked invalid with at least one issue. */
    method RecordManualIssues(issueCount: int)
      requires Valid()
      modifies this
      ensures Valid()
      ensures manualIssueCount == ManualCount(issueCount)
      ensures lastSummary == ValidationSummary(false, ManualCount(issueCount))
      ensures posted == old(posted) + [lastSummary]
      ensures timerArmed == old(timerArmed) && runPending == old(runPending) && debounceMs == old(debounceMs)
    {
      manualIssueCount := ManualCount(issueCount);
      PublishSummary(ValidationSummary(false, manualIssueCount));
    }

    /** `clear_manual_issues`: nothing to do without manual issues; otherwise they go and a pass is scheduled. */
    method ClearManualIssues()
      requires Valid()
      modifies this
      ensures Valid()
      ensures manualIssueCount == 0
      ensures old(manualIssueCount) == 0 ==>
        timerArmed == old(timerArmed) && runPending == old(runPending)
      ensures old(manualIssueCount) != 0 ==> !timerArmed && runPending
      ensures lastSummary == old(lastSummary) && posted == old(posted) && debounceMs == old(debounceMs)
    {
      if manualIssueCount == 0 {
        return;
      }
      manualIssueCount := 0;
      ScheduleValidation();
    }

    /** `_schedule_validation`: the timer has fired; a pass starts unless one is still running. */
    method ScheduleValidation()
      requires Valid()
      modifies this
      ensures Valid()
      ensures !timerArmed && runPending
      ensures manualIssueCount == old(manualIssueCount) && lastSummary == old(lastSummary)
      ensures posted == old(posted) && debounceMs == old(debounceMs)
    {
      timerArmed := false;
      if runPending {
        return;
      }
      runPending := true;
    }

    /**
     * `_run_validation`, given the issues `_collect_issues` found: the total
     * counts them and the manual issues, and the layout is valid exactly when
     * the total is zero. The pass is then over.
     */
    method RunValidation(issues: seq<string>) returns (summary: ValidationSummary)
      requires Valid()
      modifies this
      ensures Valid()
      ensures summary == RunSummary(|issues|, manualIssueCount)
      ensures summary.issueCount == |issues| + manualIssueCount
      ensures summary.isValid <==> summary.issueCount == 0
      ensures lastSummary == summary && posted == old(posted) + [summary]
      ensures !runPending && manualIssueCount == old(manualIssueCount)
      ensures timerArmed == old(timerArmed) && debounceMs == old(debounceMs)
    {
      var total := |issues| + manualIssueCount;
      summary := ValidationSummary(total == 0, total);
      PublishSummary(summary);
      runPending := false;
    }

    /** `validate_now`: pending work is cancelled and a pass runs at once. */
    method ValidateNow(issues: seq<string>) returns (summary: ValidationSummary)
      requires Valid()
      modifies this
      ensures Valid()
      ensures summary == RunSummary(|issues|, manualIssueCount)
      ensures lastSummary == summary && posted == old(posted) + [summary]
      ensures !timerArmed && !runPending && manualIssueCount == old(manualIssueCount) && debounceMs == old(debounceMs)
    {
      Cancel();
      summary := RunValidation(issues);
    }
  }

  /** While a form reports issues no validation pass can call the layout valid. */
  lemma ManualIssuesKeepInvalid(collected: nat, manual: nat)
    requires manual > 0
    ensures !RunSummary(collected, manual).isValid
    ensures RunSummary(collected, manual).issueCount >= manual
  {
  }
}
