/**
 Packet schedules of the UDP impairment relay.  Each direction of traffic counts its
 packets, and the profile decides from the count and the clock when a packet leaves or
 that it is lost.  Times are integers in units of 0.1 ms.
 */
module Impairment {
  import opened Bytes

  datatype Direction = ToServer | ToClient

  /** The four profiles of `ImpairmentSchedule`, and the schedule of `NavigationImpairment`. */
  datatype Profile = Direct | Jitter | Loss | Stall | Navigation

  const SHORT_DELAY := 50
  const LONG_DELAY := 450
  const STALL_DELAY := 2500
  const STALLED_PACKET := 40

  /** The state of one direction: packets counted so far, and the end of the stall. */
  datatype Lane = Lane(count: nat, stallUntil: int)

  function Advance(profile: Profile, lane: Lane, now: int): Lane {
    var n := lane.count + 1;
    Lane(n, if profile.Stall? && n == STALLED_PACKET then now + STALL_DELAY else lane.stallUntil)
  }

  /** When the packet just counted leaves; None means it is dropped. */
  function Due(profile: Profile, lane: Lane, now: int): Option<int> {
    var n := lane.count;
    match profile
    case Direct => Some(now)
    case Loss => if n % 20 == 0 then None else Some(now)
    case Jitter => Some(now + if n % 2 != 0 then LONG_DELAY else SHORT_DELAY)
    case Stall => Some(if now + SHORT_DELAY >= lane.stallUntil then now + SHORT_DELAY else lane.stallUntil)
    case Navigation =>
      if n % 10 == 0 then None
      else Some(now + 1000 + (n % 5 - 2) * 125 + if n % 23 == 0 then 1250 else 0)
  }

  /** `ImpairmentSchedule` and `NavigationImpairment`: per-direction counters updated by
      each call of `delivery`. */
  class ImpairmentSchedule {
    const profile: Profile
    var sequence: map<Direction, nat>
    var stallUntil: map<Direction, int>

    ghost predicate Valid()
      reads this
    {
      && ToServer in sequence && ToClient in sequence
      && ToServer in stallUntil && ToClient in stallUntil
    }

    ghost function LaneOf(d: Direction): Lane
      requires Valid()
      reads this
    {
      match d
      case ToServer => Lane(sequence[ToServer], stallUntil[ToServer])
      case ToClient => Lane(sequence[ToClient], stallUntil[ToClient])
    }

    constructor (profile: Profile)
      ensures Valid() && this.profile == profile
      ensures LaneOf(ToServer) == LaneOf(ToClient) == Lane(0, 0)
    {
      this.profile := profile;
      sequence := map[ToServer := 0, ToClient := 0];
      stallUntil := map[ToServer := 0, ToClient := 0];
    }

    method Delivery(direction: Direction, now: int) returns (due: Option<int>)
      requires Valid()
      modifies this
      ensures Valid()
      ensures LaneOf(direction) == Advance(profile, old(LaneOf(direction)), now)
      ensures due == Due(profile, LaneOf(direction), now)
      ensures forall d: Direction :: d != direction ==> LaneOf(d) == old(LaneOf(d))
    {
      assert direction in sequence && direction in stallUntil by {
        match direction case ToServer => case ToClient =>
      }
      sequence := sequence[direction := sequence[direction] + 1];
      var n: int := sequence[direction];
      if profile == Loss && n % 20 == 0 {
        return None;
      }
      if profile == Jitter {
        return Some(now + if n % 2 != 0 then LONG_DELAY else SHORT_DELAY);
      }
      if profile == Stall {
        if n == STALLED_PACKET {
          stallUntil := stallUntil[direction := now + STALL_DELAY];
        }
        return Some(if now + SHORT_DELAY >= stallUntil[direction] then now + SHORT_DELAY else stallUntil[direction]);
      }
      if profile == Navigation {
        if n % 10 == 0 {
          return None;
        }
        return Some(now + 1000 + (n % 5 - 2) * 125 + if n % 23 == 0 then 1250 else 0);
      }
      return Some(now);
    }
  }

  // ----- A whole direction

  /** The state after packets were scheduled at these clock readings. */
  function LaneAfter(profile: Profile, times: seq<int>): (lane: Lane)
    ensures lane.count == |times|
  {
    if times == [] then Lane(0, 0)
    else Advance(profile, LaneAfter(profile, times[..|times| - 1]), times[|times| - 1])
  }

  /** What became of packet k. */
  function Outcome(profile: Profile, times: seq<int>, k: nat): Option<int>
    requires k < |times|
  {
    Due(profile, LaneAfter(profile, times[..k + 1]), times[k])
  }

  lemma {:induction false} StallEnd(times: seq<int>, k: nat)
    requires k <= |times|
    ensures LaneAfter(Stall, times[..k]).stallUntil ==
            if k >= STALLED_PACKET then times[STALLED_PACKET - 1] + STALL_DELAY else 0
  {
    if k > 0 {
      StallEnd(times, k - 1);
      assert times[..k][..k - 1] == times[..k - 1];
    }
  }

  function Later(a: int, b: int): int {
    if a >= b then a else b
  }

  /** What becomes of packet k, from its number and the clock readings alone. */
  lemma OutcomeExactly(profile: Profile, times: seq<int>, k: nat)
    requires k < |times|
    ensures Outcome(profile, times, k) ==
            match profile
            case Direct => Some(times[k])
            case Loss => if (k + 1) % 20 == 0 then None else Some(times[k])
            case Jitter => Some(times[k] + if (k + 1) % 2 == 1 then 450 else 50)
            case Stall => Some(Later(times[k] + 50, if k >= 39 then times[39] + 2500 else 0))
            case Navigation =>
              if (k + 1) % 10 == 0 then None
              else Some(times[k] + 1000 + ((k + 1) % 5 - 2) * 125 + if (k + 1) % 23 == 0 then 1250 else 0)
  {
    if profile.Stall? {
      StallEnd(times, k + 1);
    }
  }

  lemma OutcomeIsFinal(profile: Profile, times: seq<int>, more: seq<int>, k: nat)
    requires k < |times|
    ensures Outcome(profile, times + more, k) == Outcome(profile, times, k)
  {
    assert (times + more)[..k + 1] == times[..k + 1];
  }

  function Dropped(profile: Profile, times: seq<int>, n: nat): nat
    requires n <= |times|
  {
    if n == 0 then 0
    else Dropped(profile, times, n - 1) + if Outcome(profile, times, n - 1).None? then 1 else 0
  }

  /** Of the first n packets of a direction, loss drops exactly one in twenty and navigation
      one in ten; the other profiles drop none. */
  lemma {:induction false} DropCount(profile: Profile, times: seq<int>, n: nat)
    requires n <= |times|
    ensures Dropped(profile, times, n) ==
            match profile case Loss => n / 20 case Navigation => n / 10 case _ => 0
  {
    if n > 0 {
      DropCount(profile, times, n - 1);
      assert n / 20 == (n - 1) / 20 + if n % 20 == 0 then 1 else 0;
      assert n / 10 == (n - 1) / 10 + if n % 10 == 0 then 1 else 0;
    }
  }

  predicate Nondecreasing(times: seq<int>) {
    forall i, j :: 0 <= i <= j < |times| ==> times[i] <= times[j]
  }

  predicate Clock(times: seq<int>) {
    Nondecreasing(times) && forall i :: 0 <= i < |times| ==> times[i] >= 0
  }

  function MinDelay(profile: Profile): int {
    match profile
    case Direct => 0
    case Loss => 0
    case Jitter => SHORT_DELAY
    case Stall => SHORT_DELAY
    case Navigation => 750
  }

  function MaxDelay(profile: Profile): int {
    match profile
    case Direct => 0
    case Loss => 0
    case Jitter => LONG_DELAY
    case Stall => STALL_DELAY
    case Navigation => 2500
  }

  /** The stall ends no later than 250 ms after some packet already scheduled. */
  lemma {:induction false} StallBound(profile: Profile, times: seq<int>, k: nat)
    requires Clock(times) && k <= |times|
    ensures LaneAfter(profile, times[..k]).stallUntil <= (if k == 0 then 0 else times[k - 1] + STALL_DELAY)
  {
    if k > 0 {
      StallBound(profile, times, k - 1);
      assert times[..k][..k - 1] == times[..k - 1];
    }
  }

  /** The end of the stall never moves back. */
  lemma {:induction false} StallMonotone(profile: Profile, times: seq<int>, i: nat, j: nat)
    requires Clock(times) && i <= j <= |times|
    ensures LaneAfter(profile, times[..i]).stallUntil <= LaneAfter(profile, times[..j]).stallUntil
    decreases j
  {
    if i < j {
      StallMonotone(profile, times, i, j - 1);
      assert times[..j][..j - 1] == times[..j - 1];
      var lane := LaneAfter(profile, times[..j - 1]);
      if profile.Stall? && lane.count + 1 == STALLED_PACKET {
        StallUntouched(profile, times, j - 1);
      }
    }
  }

  lemma {:induction false} StallUntouched(profile: Profile, times: seq<int>, k: nat)
    requires k <= |times| && k < STALLED_PACKET
    ensures LaneAfter(profile, times[..k]).stallUntil == 0
  {
    if k > 0 {
      StallUntouched(profile, times, k - 1);
      assert times[..k][..k - 1] == times[..k - 1];
    }
  }

  /** Every delay is within the profile's bounds. */
  lemma DelayBounds(profile: Profile, times: seq<int>, k: nat)
    requires Clock(times) && k < |times| && Outcome(profile, times, k).Some?
    ensures times[k] + MinDelay(profile) <= Outcome(profile, times, k).value <= times[k] + MaxDelay(profile)
  {
    StallBound(profile, times, k + 1);
  }

  /** Direct, loss and stall never schedule a later packet of a direction before an earlier
      one. */
  lemma OrderedProfiles(profile: Profile, times: seq<int>, i: nat, j: nat)
    requires profile.Direct? || profile.Loss? || profile.Stall?
    requires Clock(times) && i < j < |times|
    requires Outcome(profile, times, i).Some? && Outcome(profile, times, j).Some?
    ensures Outcome(profile, times, i).value <= Outcome(profile, times, j).value
  {
    StallMonotone(profile, times, i + 1, j + 1);
  }

  /** Where a later packet is scheduled before an earlier one, the two were less than the
      spread of the profile's delays apart: 40 ms for jitter, 175 ms for navigation. */
  lemma BoundedReordering(profile: Profile, times: seq<int>, i: nat, j: nat)
    requires Clock(times) && i < j < |times|
    requires Outcome(profile, times, i).Some? && Outcome(profile, times, j).Some?
    requires Outcome(profile, times, j).value < Outcome(profile, times, i).value
    ensures profile.Jitter? || profile.Navigation?
    ensures times[j] - times[i] < (if profile.Jitter? then 400 else 1750)
  {
    if profile.Direct? || profile.Loss? || profile.Stall? {
      OrderedProfiles(profile, times, i, j);
    }
    DelayBounds(profile, times, i);
    DelayBounds(profile, times, j);
  }
}
