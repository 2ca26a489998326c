/** Controller descriptors, the admission rule of canSwitch and the outcome of doSwitch,
    stated over the two running flags of the hardware interface. */
module Controllers {

  /** The declared type of a controller descriptor: the velocity trajectory controller,
      the position trajectory controller, or any other type name. */
  datatype ControllerKind = Velocity | Position | Other

  /** The two independent running flags; both set at once is representable. */
  datatype Flags = Flags(velocity: bool, position: bool)

  /** One request of the controller manager: controllers to start and to stop. */
  datatype SwitchRequest = SwitchRequest(start: seq<ControllerKind>, stop: seq<ControllerKind>)

  predicate Exclusive(f: Flags)
  {
    !(f.velocity && f.position)
  }

  /** The start list asks for both kinds at once. */
  predicate StartsBoth(start: seq<ControllerKind>)
  {
    Velocity in start && Position in start
  }

  /** Number of descriptors of kind k in a list. */
  function Count(s: seq<ControllerKind>, k: ControllerKind): nat
  {
    multiset(s)[k]
  }

  /** Whether a single start descriptor of kind k makes canSwitch return false:
      its own kind is running, or the other kind is running and no descriptor of
      that other kind is in the stop list. Other kinds are never refused. */
  predicate Refused(f: Flags, k: ControllerKind, stop: seq<ControllerKind>)
  {
    match k
    case Velocity => f.velocity || (f.position && Position !in stop)
    case Position => f.position || (f.velocity && Velocity !in stop)
    case Other => false
  }

  /** The admission rule: a request is admitted when no start descriptor is refused. */
  predicate Admissible(f: Flags, start: seq<ControllerKind>, stop: seq<ControllerKind>)
  {
    forall i :: 0 <= i < |start| ==> !Refused(f, start[i], stop)
  }

  /** The flag of kind k after doSwitch: the stop list is applied first and the start
      list second, so a start wins over a stop of the same kind. */
  function SwitchedFlag(k: ControllerKind, running: bool, start: seq<ControllerKind>, stop: seq<ControllerKind>): bool
  {
    if k in start then true else if k in stop then false else running
  }

  /** Both flags after doSwitch. */
  function Switched(f: Flags, start: seq<ControllerKind>, stop: seq<ControllerKind>): Flags
  {
    Flags(SwitchedFlag(Velocity, f.velocity, start, stop), SwitchedFlag(Position, f.position, start, stop))
  }

  /** The flags after a controller manager offers the requests in order and commits
      (doSwitch) each one that canSwitch admits. */
  function Session(f: Flags, requests: seq<SwitchRequest>): Flags
    decreases |requests|
  {
    if requests == [] then f
    else
      var r := requests[0];
      var next := if Admissible(f, r.start, r.stop) then Switched(f, r.start, r.stop) else f;
      Session(next, requests[1..])
  }

  /** The descriptors of a list that are not of kind Other, in order. */
  function Relevant(s: seq<ControllerKind>): seq<ControllerKind>
    decreases |s|
  {
    if s == [] then []
    else if s[0] == Other then Relevant(s[1..])
    else [s[0]] + Relevant(s[1..])
  }

  /** The inner loop of canSwitch: a linear search of a list for a descriptor of kind k,
      leaving at the first hit. */
  method Contains(list: seq<ControllerKind>, k: ControllerKind) returns (found: bool)
    ensures found <==> k in list
  {
    found := false;
    var i := 0;
    while i < |list|
      invariant 0 <= i <= |list|
      invariant k !in list[..i]
    {
      if list[i] == k {
        found := true;
        break;
      }
      assert list[..i + 1] == list[..i] + [list[i]];
      i := i + 1;
    }
    assert !found ==> list[..i] == list;
  }

  /** The admission rule stated per kind: a request is admitted exactly when each kind
      in the start list is not already running, and the other kind is either not
      running or is in the stop list. */
  lemma AdmissibleExactly(f: Flags, start: seq<ControllerKind>, stop: seq<ControllerKind>)
    ensures Admissible(f, start, stop) <==>
      (Velocity in start ==> !f.velocity && (f.position ==> Position in stop)) &&
      (Position in start ==> !f.position && (f.velocity ==> Velocity in stop))
  {
  }

  /** Restarting a kind that is already running is refused, whatever the stop list
      holds: the running check comes before any look at the stop list. */
  lemma RestartRejected(f: Flags, k: ControllerKind, start: seq<ControllerKind>, stop: seq<ControllerKind>)
    requires k in start
    requires (k == Velocity && f.velocity) || (k == Position && f.position)
    ensures !Admissible(f, start, stop)
  {
  }

  /** Starting velocity while position runs and the stop list does not stop position
      is refused. */
  lemma VelocityWhilePositionRejected(stop: seq<ControllerKind>)
    requires Position !in stop
    ensures !Admissible(Flags(false, true), [Velocity], stop)
  {
    assert Refused(Flags(false, true), [Velocity][0], stop);
  }

  /** A request whose start list names neither kind (in particular an empty start list)
      is always admitted, and leaves each flag either as it was or cleared. */
  lemma StoppingAlwaysAdmitted(f: Flags, start: seq<ControllerKind>, stop: seq<ControllerKind>)
    requires Velocity !in start && Position !in start
    ensures Admissible(f, start, stop)
    ensures Exclusive(f) ==> Exclusive(Switched(f, start, stop))
  {
  }

  lemma {:induction false} RelevantKeepsKinds(s: seq<ControllerKind>, k: ControllerKind)
    requires k != Other
    ensures Count(Relevant(s), k) == Count(s, k)
    ensures k in Relevant(s) <==> k in s
    decreases |s|
  {
    if s != [] {
      RelevantKeepsKinds(s[1..], k);
      assert s == [s[0]] + s[1..];
      if s[0] != Other {
        assert multiset(Relevant(s)) == multiset([s[0]]) + multiset(Relevant(s[1..]));
      }
      assert multiset(s) == multiset([s[0]]) + multiset(s[1..]);
      assert k in s <==> k == s[0] || k in s[1..];
      assert k in Relevant(s) <==> k in multiset(Relevant(s));
    }
  }

  /** Descriptors of other types are ignored: dropping them from either list changes
      neither admission, nor the resulting flags, nor the number of servo calls. */
  lemma OtherDescriptorsIgnored(f: Flags, start: seq<ControllerKind>, stop: seq<ControllerKind>)
    ensures Admissible(f, start, stop) == Admissible(f, Relevant(start), Relevant(stop))
    ensures Switched(f, start, stop) == Switched(f, Relevant(start), Relevant(stop))
    ensures Count(Relevant(start), Position) == Count(start, Position)
    ensures Count(Relevant(stop), Position) == Count(stop, Position)
  {
    RelevantKeepsKinds(start, Velocity);
    RelevantKeepsKinds(start, Position);
    RelevantKeepsKinds(stop, Velocity);
    RelevantKeepsKinds(stop, Position);
    AdmissibleExactly(f, start, stop);
    AdmissibleExactly(f, Relevant(start), Relevant(stop));
  }

  /** Conditional mutual exclusion: from a state where not both kinds run, an admitted
      request that does not start both kinds leaves not both kinds running. */
  lemma SwitchKeepsExclusive(f: Flags, start: seq<ControllerKind>, stop: seq<ControllerKind>)
    requires Exclusive(f)
    requires Admissible(f, start, stop)
    requires !StartsBoth(start)
    ensures Exclusive(Switched(f, start, stop))
  {
  }

  /** Why the side condition is needed: while idle, a start list holding both kinds is
      admitted (only the current flags are checked) and the switch sets both flags. */
  lemma BothKindsAdmittedWhenIdle()
    ensures Admissible(Flags(false, false), [Velocity, Position], [])
    ensures Switched(Flags(false, false), [Velocity, Position], []) == Flags(true, true)
  {
  }

  /** Atomic swap: while position runs, starting velocity and stopping position in the
      same request is admitted and leaves only velocity running; symmetrically for the
      opposite swap. */
  lemma AtomicSwap(start: seq<ControllerKind>, stop: seq<ControllerKind>)
    ensures Velocity in start && Position !in start && Position in stop ==>
      Admissible(Flags(false, true), start, stop) &&
      Switched(Flags(false, true), start, stop) == Flags(true, false)
    ensures Position in start && Velocity !in start && Velocity in stop ==>
      Admissible(Flags(true, false), start, stop) &&
      Switched(Flags(true, false), start, stop) == Flags(false, true)
  {
  }

  /** Over any sequence of requests, each committed only when admitted and none starting
      both kinds, the two flags are never set together. */
  lemma {:induction false} SessionKeepsExclusive(f: Flags, requests: seq<SwitchRequest>)
    requires Exclusive(f)
    requires forall i :: 0 <= i < |requests| ==> !StartsBoth(requests[i].start)
    ensures Exclusive(Session(f, requests))
    decreases |requests|
  {
    if requests != [] {
      var r := requests[0];
      if Admissible(f, r.start, r.stop) {
        SwitchKeepsExclusive(f, r.start, r.stop);
      }
      var next := if Admissible(f, r.start, r.stop) then Switched(f, r.start, r.stop) else f;
      assert forall i :: 0 <= i < |requests[1..]| ==> requests[1..][i] == requests[i + 1];
      SessionKeepsExclusive(next, requests[1..]);
    }
  }
}
