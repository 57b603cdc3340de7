/** The add-product wizard: the eight steps and their required fields, the check
    that a step's required fields are filled in, the step navigation (next,
    previous, clicking a step) over the current step and the list of completed
    steps, and the progress percentage. */
module AddProductForm {
  import opened Common

  // ---------------------------------------------------------------------------
  // Form values
  // ---------------------------------------------------------------------------

  /** A JavaScript value held by the form. */
  datatype Value =
    | Undefined
    | Null
    | Bool(b: bool)
    | Num(n: JsNumber)
    | Str(s: string)
    | Arr(items: seq<Value>)
    | Obj(fields: map<string, Value>)

  predicate TruthyValue(v: Value) {
    match v
    case Undefined => false
    case Null => false
    case Bool(b) => b
    case Num(n) => Truthy(n)
    case Str(s) => s != ""
    case Arr(_) => true
    case Obj(_) => true
  }

  /** `obj[key]` for an object's own keys; every other lookup is `undefined`. */
  function Get(obj: Value, key: string): Value {
    match obj
    case Obj(fields) => if key in fields then fields[key] else Undefined
    case _ => Undefined
  }

  /** `keys.reduce((obj, key) => (obj ? obj[key] : undefined), root)`. */
  function Lookup(keys: seq<string>, root: Value): Value
    decreases |keys|
  {
    if keys == [] then root
    else Lookup(keys[1..], if TruthyValue(root) then Get(root, keys[0]) else Undefined)
  }

  /** The value at a dotted path such as "seo.title". */
  function FieldValue(path: string, values: Value): Value {
    Lookup(Split(path, '.'), values)
  }

  /** Whether one required value counts as filled in: a boolean always, an array
      when non-empty, an object when it has a key, anything else unless it is
      `undefined`, `null` or "". */
  predicate Filled(v: Value) {
    match v
    case Bool(_) => true
    case Arr(items) => |items| > 0
    case Obj(fields) => |fields| > 0
    case _ => v != Undefined && v != Null && v != Str("")
  }

  /** Once the walk reaches `undefined` it stays there. */
  lemma {:induction false} LookupUndefined(keys: seq<string>)
    ensures Lookup(keys, Undefined) == Undefined
    decreases |keys|
  {
    if keys != [] {
      LookupUndefined(keys[1..]);
    }
  }

  /** Walking a path in two parts is walking the second part from where the first
      one ends. */
  lemma {:induction false} LookupAppend(a: seq<string>, b: seq<string>, root: Value)
    ensures Lookup(a + b, root) == Lookup(b, Lookup(a, root))
    decreases |a|
  {
    if a != [] {
      assert (a + b)[1..] == a[1..] + b;
      LookupAppend(a[1..], b, if TruthyValue(root) then Get(root, a[0]) else Undefined);
    } else {
      assert a + b == b;
    }
  }

  /** A path that reaches a link the form does not have yields `undefined`, so the
      field is not filled in. */
  lemma MissingLinkUndefined(keys: seq<string>, k: nat, root: Value)
    requires k < |keys|
    requires Get(Lookup(keys[..k], root), keys[k]) == Undefined
    ensures Lookup(keys, root) == Undefined
    ensures !Filled(Lookup(keys, root))
  {
    assert keys == keys[..k] + keys[k..];
    LookupAppend(keys[..k], keys[k..], root);
    LookupUndefined(keys[k + 1..]);
    assert keys[k..][1..] == keys[k + 1..];
  }

  /** "a.b" on nested objects gives the inner value. */
  lemma DottedPath(outer: string, inner: string, fields: map<string, Value>, v: Value)
    requires '.' !in outer && '.' !in inner
    requires outer in fields && fields[outer].Obj? && inner in fields[outer].fields
    requires fields[outer].fields[inner] == v
    ensures FieldValue(outer + "." + inner, Obj(fields)) == v
  {
    assert forall i :: 0 <= i < |outer| ==> outer[i] != '.' by {
      forall i | 0 <= i < |outer| ensures outer[i] != '.' { assert outer[i] in outer; }
    }
    assert forall i :: 0 <= i < |inner| ==> inner[i] != '.' by {
      forall i | 0 <= i < |inner| ensures inner[i] != '.' { assert inner[i] in inner; }
    }
    SplitAt(outer, '.', inner);
    SplitNone(inner, '.');
    assert outer + "." + inner == outer + ['.'] + inner;
    var keys := [outer] + [inner];
    assert Split(outer + "." + inner, '.') == keys;
    var middle := Get(Obj(fields), outer);
    assert middle == fields[outer] && TruthyValue(middle);
    assert keys[1..] == [inner] && [inner][1..] == [];
    assert Lookup(keys, Obj(fields)) == Lookup([inner], middle);
    assert Lookup([inner], middle) == Lookup([], v);
  }

  // ---------------------------------------------------------------------------
  // The steps
  // ---------------------------------------------------------------------------

  datatype Step = Step(id: int, title: string, requiredFields: seq<string>)

  const ReviewTitle := "Review"

  /** The `steps` table: ids 1 to 8, the last one the review step. */
  const Steps: seq<Step> := [
    Step(1, "Basic Info", ["productName", "category", "shortDescription", "descriptionJson", "descriptionHtml"]),
    Step(2, "Media", ["images"]),
    Step(3, "Pricing & Inventory", ["costPrice", "price", "availability", "stock", "lowStockThreshold", "sku"]),
    Step(4, "Source & Origin", ["source.region", "source.beekeeper", "sourceDetailsHtml", "sourceDetailsJson"]),
    Step(5, "Delivery & Policy", ["delivery.charge"]),
    Step(6, "Tags & Organization", ["tags", "collections"]),
    Step(7, "SEO", ["seo.title", "seo.description", "seo.url"]),
    Step(8, ReviewTitle, [])
  ]

  const StepCount := 8
  const ReviewStep := 8

  function StepId(s: Step): int {
    s.id
  }

  /** `steps.find(s => s.id === id)` gives the entry at position id - 1 for ids 1
      to 8, and nothing for any other id; only step 8 is the review step. */
  lemma FindStep(id: int)
    ensures |Steps| == StepCount
    ensures 1 <= id <= StepCount ==> FindKey(Steps, StepId, id) == id - 1 && Steps[id - 1].id == id
    ensures !(1 <= id <= StepCount) ==> FindKey(Steps, StepId, id) == -1
    ensures 1 <= id <= StepCount ==> (Steps[id - 1].title == ReviewTitle <==> id == ReviewStep)
  {
    assert forall k :: 0 <= k < |Steps| ==> StepId(Steps[k]) == 1 + k;
    FindConsecutive(Steps, StepId, 1, id);
    if 1 <= id <= StepCount {
      ReviewIsLast(id - 1);
    }
  }

  lemma ReviewIsLast(k: nat)
    requires k < |Steps|
    ensures Steps[k].title == ReviewTitle <==> k == |Steps| - 1
  {
  }

  /** In a table whose keys count up from `base`, a key is found at its offset. */
  lemma {:induction false} FindConsecutive<T>(s: seq<T>, key: T -> int, base: int, id: int)
    requires forall k :: 0 <= k < |s| ==> key(s[k]) == base + k
    ensures FindKey(s, key, id) == if base <= id < base + |s| then id - base else -1
  {
    if s != [] && key(s[0]) != id {
      FindConsecutive(s[1..], key, base + 1, id);
    }
  }

  /** `isStepCompleted(stepId)` against the form's current values. */
  predicate StepCompleted(stepId: int, values: Value) {
    var i := FindKey(Steps, StepId, stepId);
    i == -1 || forall k :: 0 <= k < |Steps[i].requiredFields| ==>
                 Filled(FieldValue(Steps[i].requiredFields[k], values))
  }

  /** An id that is not in the table, and the review step with no required
      fields, always count as completed. */
  lemma AlwaysCompleted(stepId: int, values: Value)
    requires !(1 <= stepId <= StepCount) || stepId == ReviewStep
    ensures StepCompleted(stepId, values)
  {
    FindStep(stepId);
  }

  /** The source step is not completed while the region is an empty string. */
  lemma SourceStepNeedsRegion(fields: map<string, Value>, source: map<string, Value>)
    requires "source" in fields && fields["source"] == Obj(source)
    requires "region" in source && source["region"] == Str("")
    ensures !StepCompleted(4, Obj(fields))
  {
    FindStep(4);
    var i := FindKey(Steps, StepId, 4);
    assert i == 3;
    var required := Steps[i].requiredFields;
    assert required[0] == "source" + "." + "region";
    DottedPath("source", "region", fields, Str(""));
    assert !Filled(FieldValue(required[0], Obj(fields)));
  }

  // ---------------------------------------------------------------------------
  // Completed-step lists
  // ---------------------------------------------------------------------------

  predicate Distinct(s: seq<int>) {
    forall i, j :: 0 <= i < j < |s| ==> s[i] != s[j]
  }

  /** `prev.filter(s => s !== x)`. */
  function Remove(s: seq<int>, x: int): (r: seq<int>)
    ensures forall y :: y in r <==> y in s && y != x
    ensures |r| <= |s|
    ensures x !in s ==> r == s
  {
    FilterOutMembers(s, StepValue, x);
    if x in s then FilterOut(s, StepValue, x)
    else
      assert forall i :: 0 <= i < |s| ==> s[i] in s;
      FilterOutNoKey(s, StepValue, x);
      FilterOut(s, StepValue, x)
  }

  /** A completed step is filtered by its own id. */
  function StepValue(id: int): int {
    id
  }

  /** Filtering keeps a list free of repeats, and removes exactly one element when
      the value occurs. */
  lemma {:induction false} RemoveDistinct(s: seq<int>, x: int)
    requires Distinct(s)
    ensures Distinct(Remove(s, x))
    ensures x in s ==> |Remove(s, x)| == |s| - 1
  {
    if s != [] {
      assert Distinct(s[1..]) by {
        forall i, j | 0 <= i < j < |s[1..]| ensures s[1..][i] != s[1..][j] {
          assert s[1..][i] == s[i + 1] && s[1..][j] == s[j + 1];
        }
      }
      RemoveDistinct(s[1..], x);
      assert s[0] !in s[1..] by {
        forall k | 0 <= k < |s[1..]| ensures s[1..][k] != s[0] {
          assert s[1..][k] == s[k + 1];
        }
      }
      var rest := Remove(s[1..], x);
      if s[0] != x {
        assert x in s ==> x in s[1..];
        var r := [s[0]] + rest;
        forall i, j | 0 <= i < j < |r| ensures r[i] != r[j] {
          if i == 0 {
            assert r[j] == rest[j - 1];
            assert rest[j - 1] in rest;
          } else {
            assert r[i] == rest[i - 1] && r[j] == rest[j - 1];
          }
        }
      }
    }
  }

  /** A list without repeats whose values lie in [lo, hi] has at most hi - lo + 1
      elements. */
  lemma {:induction false} DistinctWithin(s: seq<int>, lo: int, hi: int)
    requires lo <= hi + 1
    requires Distinct(s) && forall k :: 0 <= k < |s| ==> lo <= s[k] <= hi
    ensures |s| <= hi - lo + 1
    decreases hi - lo + 1
  {
    if s != [] {
      assert lo <= s[0] <= hi;
      var r := Remove(s, hi);
      RemoveDistinct(s, hi);
      assert forall k :: 0 <= k < |r| ==> lo <= r[k] <= hi - 1 by {
        forall k | 0 <= k < |r| ensures lo <= r[k] <= hi - 1 {
          assert r[k] in r;
          var m :| 0 <= m < |s| && s[m] == r[k];
        }
      }
      DistinctWithin(r, lo, hi - 1);
    }
  }

  /** A list without repeats holding every value of [lo, hi] has at least
      hi - lo + 1 elements. */
  lemma {:induction false} DistinctCovering(s: seq<int>, lo: int, hi: int)
    requires lo <= hi + 1
    requires Distinct(s) && forall t :: lo <= t <= hi ==> t in s
    ensures |s| >= hi - lo + 1
    decreases hi - lo + 1
  {
    if lo <= hi {
      var r := Remove(s, hi);
      RemoveDistinct(s, hi);
      DistinctCovering(r, lo, hi - 1);
    }
  }

  // ---------------------------------------------------------------------------
  // Navigation invariant and progress
  // ---------------------------------------------------------------------------

  /** What the navigation keeps true of its state: the current step is a step; the
      completed list holds step ids without repeats; every completed step after
      the first has its predecessor completed; and the current step's predecessor
      is completed. */
  predicate WizardInvariant(currentStep: int, completed: seq<int>) {
    && 1 <= currentStep <= StepCount
    && Distinct(completed)
    && (forall k :: 0 <= k < |completed| ==> 1 <= completed[k] <= StepCount)
    && (forall s :: s in completed && s > 1 ==> s - 1 in completed)
    && (currentStep == 1 || currentStep - 1 in completed)
  }

  /** Under the chain condition a completed step has all earlier steps completed. */
  lemma {:induction false} ChainDown(completed: seq<int>, s: int)
    requires forall x :: x in completed && x > 1 ==> x - 1 in completed
    requires s in completed && s >= 1
    ensures forall t :: 1 <= t <= s ==> t in completed
    decreases s
  {
    if s > 1 {
      ChainDown(completed, s - 1);
    }
  }

  /** `nonReviewSteps.every(s => completedSteps.includes(s.id))`. */
  predicate AllNonReviewCompleted(completed: seq<int>) {
    forall k :: 0 <= k < |Steps| && Steps[k].title != ReviewTitle ==> Steps[k].id in completed
  }

  /** The review step is only ever current once every other step is completed. */
  lemma ReviewOnlyWhenAllCompleted(completed: seq<int>)
    requires WizardInvariant(ReviewStep, completed)
    ensures AllNonReviewCompleted(completed)
  {
    ChainDown(completed, ReviewStep - 1);
    forall k | 0 <= k < |Steps| && Steps[k].title != ReviewTitle ensures Steps[k].id in completed {
      FindStep(k + 1);
    }
  }

  /** A completed id counts for progress unless its step is the review step (an
      id with no step counts too). */
  predicate CountsForProgress(id: int) {
    var i := FindKey(Steps, StepId, id);
    i == -1 || Steps[i].title != ReviewTitle
  }

  /** `completedSteps.filter(...)` of the ids that count for progress. */
  function ProgressIds(completed: seq<int>): (r: seq<int>)
    ensures forall y :: y in r <==> y in completed && CountsForProgress(y)
  {
    if completed == [] then []
    else
      var rest := ProgressIds(completed[1..]);
      assert forall y :: y in completed <==> y == completed[0] || y in completed[1..];
      if CountsForProgress(completed[0]) then [completed[0]] + rest else rest
  }

  lemma {:induction false} ProgressIdsDistinct(completed: seq<int>)
    requires Distinct(completed)
    ensures Distinct(ProgressIds(completed))
  {
    if completed != [] {
      var t := completed[1..];
      DistinctParts(completed);
      ProgressIdsDistinct(t);
      if CountsForProgress(completed[0]) {
        PrependFresh(completed[0], ProgressIds(t));
      }
    }
  }

  /** The tail of a list without repeats has none, and does not hold the head. */
  lemma DistinctParts(s: seq<int>)
    requires Distinct(s) && s != []
    ensures Distinct(s[1..]) && s[0] !in s[1..]
  {
    var t := s[1..];
    forall i, j | 0 <= i < j < |t| ensures t[i] != t[j] {
      assert t[i] == s[i + 1] && t[j] == s[j + 1];
    }
    forall m | 0 <= m < |t| ensures t[m] != s[0] {
      assert t[m] == s[m + 1];
    }
  }

  /** Prepending a value not yet listed keeps a list free of repeats. */
  lemma PrependFresh(x: int, s: seq<int>)
    requires Distinct(s) && x !in s
    ensures Distinct([x] + s)
  {
    var r := [x] + s;
    forall i, j | 0 <= i < j < |r| ensures r[i] != r[j] {
      if i == 0 {
        assert r[j] == s[j - 1] && s[j - 1] in s;
      } else {
        assert r[i] == s[i - 1] && r[j] == s[j - 1];
      }
    }
  }

  /** `Math.round((count / 7) * 100)`: count * 100 / 7 never ends in a half, so
      rounding is the floor of (200 * count + 7) / 14. */
  function ProgressPercent(count: nat): (p: nat)
    ensures p as real - 0.5 <= count as real * 100.0 / 7.0 < p as real + 0.5
  {
    var p := (200 * count + 7) / 14;
    assert 14 * p - 7 <= 200 * count < 14 * p + 7;
    p
  }

  /** No completed step gives 0%, all seven countable steps give 100%, and the
      percentage grows with the count. */
  lemma ProgressScale(count: nat, more: nat)
    requires count <= more
    ensures ProgressPercent(0) == 0 && ProgressPercent(7) == 100
    ensures ProgressPercent(count) <= ProgressPercent(more)
    ensures more <= 7 ==> ProgressPercent(more) <= 100
  {
  }

  /** Under the invariant at most the seven countable steps are counted, so the
      progress never passes 100%; at the review step all seven are counted, so it
      shows 100%. */
  lemma ProgressBounded(currentStep: int, completed: seq<int>)
    requires WizardInvariant(currentStep, completed)
    ensures |ProgressIds(completed)| <= StepCount - 1
    ensures ProgressPercent(|ProgressIds(completed)|) <= 100
    ensures currentStep == ReviewStep ==> ProgressPercent(|ProgressIds(completed)|) == 100
  {
    var p := ProgressIds(completed);
    ProgressIdsDistinct(completed);
    forall k | 0 <= k < |p| ensures 1 <= p[k] <= StepCount - 1 {
      assert p[k] in p;
      var m :| 0 <= m < |completed| && completed[m] == p[k];
      FindStep(p[k]);
    }
    DistinctWithin(p, 1, StepCount - 1);
    if currentStep == ReviewStep {
      ChainDown(completed, ReviewStep - 1);
      forall t | 1 <= t <= StepCount - 1 ensures t in p {
        FindStep(t);
      }
      DistinctCovering(p, 1, StepCount - 1);
    }
  }

  // ---------------------------------------------------------------------------
  // The wizard's navigation state
  // ---------------------------------------------------------------------------

  /** The `currentStep` and `completedSteps` state of the form. */
  class ProductWizard {
    var currentStep: int
    var completedSteps: seq<int>

    predicate Valid()
      reads this
    {
      WizardInvariant(currentStep, completedSteps)
    }

    constructor()
      ensures currentStep == 1 && completedSteps == []
      ensures Valid()
    {
      currentStep := 1;
      completedSteps := [];
    }

    /** `handleNext`: an incomplete step changes nothing; a complete one is moved to
        the end of the completed list, where it then occurs exactly once, and the
        wizard advances unless it is at the last step. */
    method HandleNext(values: Value)
      requires Valid()
      modifies this
      ensures Valid()
      ensures !StepCompleted(old(currentStep), values) ==>
                currentStep == old(currentStep) && completedSteps == old(completedSteps)
      ensures StepCompleted(old(currentStep), values) ==>
                && completedSteps == Remove(old(completedSteps), old(currentStep)) + [old(currentStep)]
                && multiset(completedSteps)[old(currentStep)] == 1
                && currentStep == (if old(currentStep) < StepCount then old(currentStep) + 1 else old(currentStep))
    {
      var stepCompleted := StepCompleted(currentStep, values);
      if !stepCompleted {
        return;
      }
      var c := currentStep;
      NextKeepsInvariant(c, completedSteps);
      CompletedOnce(completedSteps, c);
      completedSteps := Remove(completedSteps, c) + [c];
      if c < StepCount {
        currentStep := c + 1;
      }
    }

    /** `handlePrevious`: one step back, never below the first. */
    method HandlePrevious()
      requires Valid()
      modifies this
      ensures Valid()
      ensures completedSteps == old(completedSteps)
      ensures currentStep == (if old(currentStep) > 1 then old(currentStep) - 1 else old(currentStep))
    {
      if currentStep > 1 {
        if currentStep > 2 {
          ChainDown(completedSteps, currentStep - 1);
        }
        currentStep := currentStep - 1;
      }
    }

    /** `handleStepClick`: the wizard moves to the clicked step exactly when the
        move is allowed, and otherwise nothing changes. */
    method HandleStepClick(stepId: int)
      requires Valid()
      modifies this
      ensures Valid()
      ensures completedSteps == old(completedSteps)
      ensures currentStep == (if ClickAllowed(old(currentStep), completedSteps, stepId) then stepId
                              else old(currentStep))
    {
      FindStep(stepId);
      var i := FindKey(Steps, StepId, stepId);
      if i == -1 {
        return;
      }
      var isReviewStep := Steps[i].title == ReviewTitle;
      var allNonReviewCompleted := AllNonReviewCompleted(completedSteps);
      if isReviewStep && !allNonReviewCompleted {
        return;
      }
      if stepId < currentStep {
        ClickKeepsInvariant(currentStep, completedSteps, stepId);
        currentStep := stepId;
        return;
      }
      var prevStepCompleted := stepId - 1 in completedSteps;
      if prevStepCompleted {
        ClickKeepsInvariant(currentStep, completedSteps, stepId);
        currentStep := stepId;
        return;
      }
    }
  }

  /** When a click may move the wizard: the step exists, the review step needs
      every other step completed, and a forward move needs the previous step
      completed; a backward move needs nothing more. */
  predicate ClickAllowed(currentStep: int, completed: seq<int>, stepId: int)
    ensures ClickAllowed(currentStep, completed, stepId) ==> 1 <= stepId <= StepCount
    ensures 1 <= stepId < currentStep && stepId < ReviewStep ==> ClickAllowed(currentStep, completed, stepId)
    ensures ClickAllowed(currentStep, completed, stepId) && stepId >= currentStep ==> stepId - 1 in completed
    ensures ClickAllowed(currentStep, completed, stepId) && stepId == ReviewStep ==> AllNonReviewCompleted(completed)
  {
    && 1 <= stepId <= StepCount
    && (stepId == ReviewStep ==> AllNonReviewCompleted(completed))
    && (stepId < currentStep || stepId - 1 in completed)
  }

  /** An allowed click keeps the invariant. */
  lemma ClickKeepsInvariant(currentStep: int, completed: seq<int>, stepId: int)
    requires WizardInvariant(currentStep, completed)
    requires ClickAllowed(currentStep, completed, stepId)
    ensures WizardInvariant(stepId, completed)
  {
    if stepId < currentStep && stepId > 1 {
      ChainDown(completed, currentStep - 1);
    }
  }

  /** After `handleNext` the current step is listed exactly once. */
  lemma CompletedOnce(completed: seq<int>, c: int)
    ensures multiset(Remove(completed, c) + [c])[c] == 1
  {
    var r := Remove(completed, c);
    assert c !in r;
    assert multiset(r)[c] == 0;
  }

  /** Appending a value not yet listed keeps a list free of repeats. */
  lemma AppendFresh(s: seq<int>, c: int)
    requires Distinct(s) && c !in s
    ensures Distinct(s + [c])
  {
    var after := s + [c];
    forall i, j | 0 <= i < j < |after| ensures after[i] != after[j] {
      if j == |after| - 1 {
        assert after[i] == s[i] && s[i] in s;
      } else {
        assert after[i] == s[i] && after[j] == s[j];
      }
    }
  }

  /** The new state of a successful `handleNext` keeps the invariant. */
  lemma NextKeepsInvariant(c: int, completed: seq<int>)
    requires WizardInvariant(c, completed)
    ensures WizardInvariant(if c < StepCount then c + 1 else c, Remove(completed, c) + [c])
  {
    RemoveDistinct(completed, c);
    AppendFresh(Remove(completed, c), c);
    NextRange(completed, c);
    NextChain(completed, c);
  }

  lemma NextRange(completed: seq<int>, c: int)
    requires forall k :: 0 <= k < |completed| ==> 1 <= completed[k] <= StepCount
    requires 1 <= c <= StepCount
    ensures forall k :: 0 <= k < |Remove(completed, c) + [c]| ==> 1 <= (Remove(completed, c) + [c])[k] <= StepCount
  {
    var rest := Remove(completed, c);
    var after := rest + [c];
    forall k | 0 <= k < |after| ensures 1 <= after[k] <= StepCount {
      if k < |rest| {
        assert after[k] == rest[k] && rest[k] in rest;
        var m :| 0 <= m < |completed| && completed[m] == rest[k];
      }
    }
  }

  lemma NextChain(completed: seq<int>, c: int)
    requires forall s :: s in completed && s > 1 ==> s - 1 in completed
    requires c == 1 || c - 1 in completed
    ensures forall s :: s in Remove(completed, c) + [c] && s > 1 ==> s - 1 in Remove(completed, c) + [c]
    ensures c in Remove(completed, c) + [c]
    ensures c == 1 || c - 1 in Remove(completed, c) + [c]
  {
    var rest := Remove(completed, c);
    var after := rest + [c];
    forall s | s in after && s > 1 ensures s - 1 in after {
      if s == c {
        assert s - 1 in rest;
      } else {
        assert s in rest;
      }
    }
    if c != 1 {
      assert c - 1 in rest;
    }
  }
}
