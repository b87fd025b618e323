/**
 * The same-day walk-in filter applied to the directory before the walk-in
 * list shows it: an order-preserving `Array.filter` with a boolean predicate
 * over the record's open flag and its instruction list.
 */
module HealthpointFilter {
  import opened HealthpointLocations

  /**
   * The filter's predicate: open today, accepts walk-in or drive-through
   * visits, and restricted neither to enrolled patients nor to invitees.
   * Only membership (`includes`) of each instruction is tested.
   */
  predicate IsWalkInEligible(l: HealthpointLocation)
  {
    var bps := l.instructionLis;
    l.isOpenToday
    && (WalkIn in bps || DriveThrough in bps)
    && !(EnrolledOnly in bps || InvitationOnly in bps)
  }

  /** The filter's predicate tested on the instruction strings as they arrive in the JSON. */
  predicate IsWalkInEligibleText(isOpenToday: bool, bps: seq<string>)
  {
    isOpenToday
    && (InstructionText(WalkIn) in bps || InstructionText(DriveThrough) in bps)
    && !(InstructionText(EnrolledOnly) in bps || InstructionText(InvitationOnly) in bps)
  }

  /**
   * Strings outside the enumeration change no verdict: testing the raw
   * strings agrees with testing the decoded instructions, unknown ones dropped.
   */
  lemma UnknownInstructionsIgnored(l: HealthpointLocation, bps: seq<string>)
    requires l.instructionLis == ParseInstructions(bps)
    ensures IsWalkInEligible(l) <==> IsWalkInEligibleText(l.isOpenToday, bps)
  {
  }

  /**
   * `filterHealthpointLocation`: the eligible records, in their input order.
   * That each kept record comes from the input is `FilterMembership`.
   */
  function FilterHealthpointLocation(all: seq<HealthpointLocation>): (r: seq<HealthpointLocation>)
    ensures |r| <= |all|
    ensures forall i :: 0 <= i < |r| ==> IsWalkInEligible(r[i])
  {
    if all == [] then []
    else if IsWalkInEligible(all[0]) then [all[0]] + FilterHealthpointLocation(all[1..])
    else FilterHealthpointLocation(all[1..])
  }

  /** A record is in the output exactly when it is in the input and eligible. */
  lemma {:induction false} FilterMembership(all: seq<HealthpointLocation>, l: HealthpointLocation)
    ensures l in FilterHealthpointLocation(all) <==> l in all && IsWalkInEligible(l)
  {
    if all != [] {
      FilterMembership(all[1..], l);
      assert all == [all[0]] + all[1..];
    }
  }

  /** The filter keeps every element of an all-eligible sequence. */
  lemma {:induction false} FilterKeepsEligible(all: seq<HealthpointLocation>)
    requires forall i :: 0 <= i < |all| ==> IsWalkInEligible(all[i])
    ensures FilterHealthpointLocation(all) == all
  {
    if all != [] {
      FilterKeepsEligible(all[1..]);
    }
  }

  /** Filtering the filter's own output changes nothing. */
  lemma {:induction false} FilterIdempotent(all: seq<HealthpointLocation>)
    ensures FilterHealthpointLocation(FilterHealthpointLocation(all)) == FilterHealthpointLocation(all)
  {
    FilterKeepsEligible(FilterHealthpointLocation(all));
  }

  /** The positions of the eligible records of `all`, counted from `offset`, in increasing order. */
  function EligiblePositions(all: seq<HealthpointLocation>, offset: nat): (ps: seq<nat>)
    ensures forall j :: 0 <= j < |ps| ==> offset <= ps[j] < offset + |all|
    ensures forall j, k :: 0 <= j < k < |ps| ==> ps[j] < ps[k]
  {
    if all == [] then []
    else if IsWalkInEligible(all[0]) then [offset] + EligiblePositions(all[1..], offset + 1)
    else EligiblePositions(all[1..], offset + 1)
  }

  /** A position is listed exactly when the record there is eligible. */
  lemma {:induction false} EligiblePositionsComplete(all: seq<HealthpointLocation>, offset: nat, p: nat)
    requires offset <= p < offset + |all|
    ensures p in EligiblePositions(all, offset) <==> IsWalkInEligible(all[p - offset])
  {
    if p > offset {
      EligiblePositionsComplete(all[1..], offset + 1, p);
      assert all[1..][p - (offset + 1)] == all[p - offset];
    }
  }

  /** There are as many eligible positions as output records. */
  lemma {:induction false} FilterLengthIsPositionCount(all: seq<HealthpointLocation>, offset: nat)
    ensures |FilterHealthpointLocation(all)| == |EligiblePositions(all, offset)|
  {
    if all != [] {
      FilterLengthIsPositionCount(all[1..], offset + 1);
    }
  }

  /**
   * The output is the subsequence of the input at the eligible positions:
   * the j-th output record is the input's record at the j-th position.
   */
  lemma {:induction false} FilterIsSubsequence(all: seq<HealthpointLocation>, offset: nat, j: nat)
    requires j < |EligiblePositions(all, offset)|
    ensures j < |FilterHealthpointLocation(all)|
    ensures FilterHealthpointLocation(all)[j] == all[EligiblePositions(all, offset)[j] - offset]
    decreases |all|, 1
  {
    assert all != [];
    if IsWalkInEligible(all[0]) {
      SubsequenceHeadKept(all, offset, j);
    } else {
      SubsequenceHeadDropped(all, offset, j);
    }
  }

  /** `FilterIsSubsequence` when the first record is kept: position j of the tail shifts to j + 1. */
  lemma {:induction false} SubsequenceHeadKept(all: seq<HealthpointLocation>, offset: nat, j: nat)
    requires all != [] && IsWalkInEligible(all[0])
    requires j < |EligiblePositions(all, offset)|
    ensures j < |FilterHealthpointLocation(all)|
    ensures FilterHealthpointLocation(all)[j] == all[EligiblePositions(all, offset)[j] - offset]
    decreases |all|, 0
  {
    FilterLengthIsPositionCount(all, offset);
    var tail := all[1..];
    if j == 0 {
      assert EligiblePositions(all, offset)[0] == offset;
      assert FilterHealthpointLocation(all)[0] == all[0];
    } else {
      FilterIsSubsequence(tail, offset + 1, j - 1);
      var p := EligiblePositions(tail, offset + 1)[j - 1];
      assert EligiblePositions(all, offset)[j] == p;
      assert FilterHealthpointLocation(all)[j] == FilterHealthpointLocation(tail)[j - 1];
      assert tail[p - (offset + 1)] == all[p - offset];
    }
  }

  /** `FilterIsSubsequence` when the first record is dropped: position j of the tail stays j. */
  lemma {:induction false} SubsequenceHeadDropped(all: seq<HealthpointLocation>, offset: nat, j: nat)
    requires all != [] && !IsWalkInEligible(all[0])
    requires j < |EligiblePositions(all, offset)|
    ensures j < |FilterHealthpointLocation(all)|
    ensures FilterHealthpointLocation(all)[j] == all[EligiblePositions(all, offset)[j] - offset]
    decreases |all|, 0
  {
    FilterLengthIsPositionCount(all, offset);
    var tail := all[1..];
    FilterIsSubsequence(tail, offset + 1, j);
    var p := EligiblePositions(tail, offset + 1)[j];
    assert EligiblePositions(all, offset)[j] == p;
    assert FilterHealthpointLocation(all)[j] == FilterHealthpointLocation(tail)[j];
    assert tail[p - (offset + 1)] == all[p - offset];
  }

  /** No record is eligible unless it lists walk-in or drive-through; in particular an empty list is excluded. */
  lemma NeedsWalkInOrDriveThrough(l: HealthpointLocation)
    requires WalkIn !in l.instructionLis && DriveThrough !in l.instructionLis
    ensures FilterHealthpointLocation([l]) == []
  {
  }

  /** An enrolled-only or invitation-only instruction excludes a record even when it is open and walk-in. */
  lemma ExclusionWins(l: HealthpointLocation)
    requires l.isOpenToday && (WalkIn in l.instructionLis || DriveThrough in l.instructionLis)
    requires EnrolledOnly in l.instructionLis || InvitationOnly in l.instructionLis
    ensures FilterHealthpointLocation([l]) == []
  {
  }

  /**
   * Eligibility depends only on which instructions are present, not on their
   * order or how often they repeat.
   */
  lemma EligibilityIgnoresDuplicates(a: HealthpointLocation, b: HealthpointLocation)
    requires a.isOpenToday == b.isOpenToday
    requires forall i :: i in a.instructionLis <==> i in b.instructionLis
    ensures IsWalkInEligible(a) <==> IsWalkInEligible(b)
  {
  }
}
