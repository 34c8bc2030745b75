/**
 * `RequirementBuilderImpl`: a single-use builder that collects cases in order and hands
 * them to a new `RequirementImpl`. After `build` every operation fails.
 */
module RequirementBuilders {
  import opened Wrappers
  import opened Android
  import opened EventSources
  import opened RequirementCases
  import opened Requirements

  /**
   * What `addAll` appends from `cases`: the elements before the first null, in order,
   * all of them when there is no null.
   */
  function Appended(cases: seq<RequirementCase?>): (r: seq<RequirementCase>)
    ensures |r| <= |cases|
  {
    if cases == [] || cases[0] == null then [] else [cases[0]] + Appended(cases[1..])
  }

  /** `Appended(cases)` is the longest prefix of `cases` without a null. */
  lemma {:induction false} AppendedIsNullFreePrefix(cases: seq<RequirementCase?>)
    ensures forall i :: 0 <= i < |Appended(cases)| ==> cases[i] == Appended(cases)[i]
    ensures |Appended(cases)| < |cases| ==> cases[|Appended(cases)|] == null
    ensures |Appended(cases)| == |cases| <==> null !in cases
  {
    if cases != [] && cases[0] != null {
      AppendedIsNullFreePrefix(cases[1..]);
      assert cases == [cases[0]] + cases[1..];
    }
  }

  /** One step of `addAll`: a non-null element is appended, then the rest. */
  lemma AppendedStep(cases: seq<RequirementCase?>, i: nat)
    requires i < |cases| && cases[i] != null
    ensures Appended(cases[i..]) == [cases[i]] + Appended(cases[i + 1..])
  {
    assert cases[i..][1..] == cases[i + 1..];
  }

  class RequirementBuilderImpl {
    /** The collected cases; `None` once the list was handed over by `build`. */
    var requirementCases: Option<seq<RequirementCase>>
    var isBuilt: bool

    /** Built exactly when the list has been released. */
    ghost predicate Valid()
      reads this
    {
      isBuilt <==> requirementCases.None?
    }

    constructor ()
      ensures Valid() && !isBuilt && requirementCases == Some([])
    {
      requirementCases := Some([]);
      isBuilt := false;
    }

    /** `checkState()`: every operation fails once the builder was built. */
    method CheckState() returns (status: Status)
      ensures status.Threw? <==> isBuilt
      ensures status.Threw? ==> status.exception == IllegalStateException
    {
      status := if isBuilt then Threw(IllegalStateException) else Done;
    }

    /** `add(c)`: appends `c` after the cases collected so far. */
    method Add(c: RequirementCase) returns (status: Status)
      requires Valid()
      modifies this
      ensures Valid() && isBuilt == old(isBuilt)
      ensures old(isBuilt) ==> status == Threw(IllegalStateException) && requirementCases == old(requirementCases)
      ensures !old(isBuilt) ==> status == Done && requirementCases == Some(old(requirementCases).value + [c])
    {
      status := CheckState();
      if status.Done? {
        requirementCases := Some(requirementCases.value + [c]);
      }
    }

    /** `addIf(result, c)`: fails when built, whatever `result` is; otherwise adds `c` only when `result` holds. */
    method AddIf(result: bool, c: RequirementCase) returns (status: Status)
      requires Valid()
      modifies this
      ensures Valid() && isBuilt == old(isBuilt)
      ensures old(isBuilt) ==> status == Threw(IllegalStateException) && requirementCases == old(requirementCases)
      ensures !old(isBuilt) ==>
        status == Done && requirementCases == Some(old(requirementCases).value + if result then [c] else [])
    {
      status := CheckState();
      if status.Done? && result {
        status := Add(c);
      } else if status.Done? {
        assert old(requirementCases).value + [] == old(requirementCases).value;
      }
    }

    /**
     * `addAll(cases)`: appends the cases in iteration order. A null element fails, with the
     * elements before it already appended.
     */
    method AddAll(cases: seq<RequirementCase?>) returns (status: Status)
      requires Valid()
      modifies this
      ensures Valid() && isBuilt == old(isBuilt)
      ensures old(isBuilt) ==> status == Threw(IllegalStateException) && requirementCases == old(requirementCases)
      ensures !old(isBuilt) ==>
        requirementCases == Some(old(requirementCases).value + Appended(cases))
        && status == if null in cases then Threw(IllegalStateException) else Done
    {
      status := CheckState();
      if status.Threw? {
        return;
      }
      var i := 0;
      while i < |cases|
        invariant 0 <= i <= |cases|
        invariant !isBuilt && requirementCases.Some?
        invariant null !in cases[..i]
        invariant requirementCases.value + Appended(cases[i..]) == old(requirementCases).value + Appended(cases)
      {
        if cases[i] == null {
          // Preconditions.checkNonNull
          assert cases[i..][0] == null && cases[i] in cases;
          assert Appended(cases[i..]) == [];
          assert requirementCases.value + [] == requirementCases.value;
          return Threw(IllegalStateException);
        }
        AppendedStep(cases, i);
        requirementCases := Some(requirementCases.value + [cases[i]]);
        assert cases[..i + 1] == cases[..i] + [cases[i]];
        i := i + 1;
      }
      assert cases[..i] == cases && cases[i..] == [];
      assert requirementCases.value + [] == requirementCases.value;
    }

    /** `addAllIf(result, cases)`: fails when built, whatever `result` is; otherwise `addAll` only when `result` holds. */
    method AddAllIf(result: bool, cases: seq<RequirementCase?>) returns (status: Status)
      requires Valid()
      modifies this
      ensures Valid() && isBuilt == old(isBuilt)
      ensures old(isBuilt) ==> status == Threw(IllegalStateException) && requirementCases == old(requirementCases)
      ensures !old(isBuilt) && !result ==> status == Done && requirementCases == old(requirementCases)
      ensures !old(isBuilt) && result ==>
        requirementCases == Some(old(requirementCases).value + Appended(cases))
        && status == if null in cases then Threw(IllegalStateException) else Done
    {
      status := CheckState();
      if status.Done? && result {
        status := AddAll(cases);
      }
    }

    /** `fork()`: a new, unbuilt builder holding a copy of the cases collected so far. */
    method Fork() returns (r: Try<RequirementBuilderImpl>)
      requires Valid()
      ensures isBuilt ==> r == Throws(IllegalStateException)
      ensures !isBuilt ==>
        r.Ok? && fresh(r.value) && r.value.Valid() && !r.value.isBuilt
        && r.value.requirementCases == requirementCases
    {
      var status := CheckState();
      if status.Threw? {
        return Throws(status.exception);
      }
      var builder := new RequirementBuilderImpl();
      builder.requirementCases := Some(builder.requirementCases.value + requirementCases.value);
      assert [] + requirementCases.value == requirementCases.value;
      r := Ok(builder);
    }

    /**
     * `build(activity, eventSource)`: once, marks the builder built, releases the list and
     * returns an idle requirement over exactly the collected cases.
     */
    method Build(activity: Activity, eventSource: EventSourceImpl) returns (r: Try<RequirementImpl>)
      requires Valid()
      modifies this
      ensures Valid() && isBuilt && requirementCases.None?
      ensures old(isBuilt) ==> r == Throws(IllegalStateException)
      ensures !old(isBuilt) ==>
        r.Ok? && fresh(r.value) && r.value.Valid()
        && r.value.activity == Some(activity) && r.value.eventSource == eventSource
        && r.value.requirementCases == old(requirementCases)
        && r.value.deque == [] && r.value.subscription == null && r.value.listenerSource.listeners == []
        && r.value.lifecycleRegistered && r.value.trace == []
    {
      var status := CheckState();
      if status.Threw? {
        return Throws(status.exception);
      }
      isBuilt := true;
      var requirement := new RequirementImpl(activity, eventSource, requirementCases.value);
      requirementCases := None;
      r := Ok(requirement);
    }
  }
}
