/** The server's device collections and the sessions that import from them: who holds which device. */
module DeviceRegistry {
  import opened Basics

  type Busid = string
  type SessionId = nat

  datatype Device = Device(busid: Busid, id: nat)

  /** Where a connection stands. */
  datatype Seat =
    | Checked(busid: Busid)                   // asked, the device was not in use
    | Holding(busid: Busid, device: Device)   // imported
    | Left                                    // refused, or given back

  datatype State = State(
    available: seq<Device>,
    inUse: map<Busid, Device>,
    seats: map<SessionId, Seat>)

  /** One step is one section under the server's lock. */
  datatype Label =
    | Add(device: Device)
    | Check(s: SessionId, busid: Busid)
    | Import(s: SessionId)
    | Exit(s: SessionId)       // also when opening the device fails
    | Unplugged(s: SessionId)  // exit of a session whose device is gone

  function Without(devices: seq<Device>, i: nat): seq<Device>
    requires i < |devices|
  {
    devices[..i] + devices[i + 1..]
  }

  /** Index of the first device with this busid, or the length. */
  function Find(devices: seq<Device>, busid: Busid): (i: nat)
    ensures i <= |devices|
    ensures i < |devices| ==> devices[i].busid == busid
    ensures forall j | 0 <= j < i :: devices[j].busid != busid
  {
    if devices == [] then 0
    else if devices[0].busid == busid then 0
    else
      assert forall j | 0 < j < |devices| :: devices[j] == devices[1..][j - 1];
      1 + Find(devices[1..], busid)
  }

  function Seated(st: State, s: SessionId, seat: Seat): State {
    st.(seats := st.seats[s := seat])
  }

  predicate Enabled(st: State, step: Label) {
    match step
    case Add(_) => true
    case Check(s, _) => s !in st.seats
    case Import(s) => s in st.seats && st.seats[s].Checked?
    case Exit(s) => s in st.seats && st.seats[s].Holding?
    case Unplugged(s) => s in st.seats && st.seats[s].Holding?
  }

  function Apply(st: State, step: Label): State
    requires Enabled(st, step)
  {
    match step
    case Add(device) => st.(available := st.available + [device])
    case Check(s, busid) => Seated(st, s, if busid in st.inUse then Left else Checked(busid))
    case Import(s) =>
      var busid := st.seats[s].busid;
      var i := Find(st.available, busid);
      if i == |st.available| then Seated(st, s, Left)
      else Seated(st, s, Holding(busid, st.available[i])).(
             inUse := st.inUse[busid := st.available[i]], available := Without(st.available, i))
    case Exit(s) =>
      var busid := st.seats[s].busid;
      if busid in st.inUse
      then Seated(st, s, Left).(available := st.available + [st.inUse[busid]], inUse := st.inUse - {busid})
      else Seated(st, s, Left)
    case Unplugged(s) => Seated(st, s, Left).(inUse := st.inUse - {st.seats[s].busid})
  }

  const START := State([], map[], map[])

  // ----- the server's collections, updated in place -----

  /** Each method is one step.  The sessions' seats are kept in sessions, not in the server: here they are ghost. */
  class Server {
    var available: seq<Device>
    var inUse: map<Busid, Device>
    ghost var now: State

    ghost predicate Valid()
      reads this
    {
      now.available == available && now.inUse == inUse
    }

    constructor ()
      ensures Valid() && now == START
    {
      available, inUse, now := [], map[], START;
    }

    method AddDevice(device: Device)
      requires Valid()
      modifies this
      ensures Valid() && now == Apply(old(now), Add(device))
    {
      available := available + [device];
      now := Apply(now, Add(device));
    }

    /** Session s asks whether the device it wants is in use; it only goes on if it is not. */
    method IsDeviceUsing(ghost s: SessionId, busid: Busid) returns (isUsing: bool)
      requires Valid() && Enabled(now, Check(s, busid))
      modifies this`now
      ensures Valid() && now == Apply(old(now), Check(s, busid))
      ensures isUsing <==> now.seats[s] == Left
    {
      isUsing := busid in inUse;
      now := Apply(now, Check(s, busid));
    }

    /** Session s takes the first available device with the busid it asked for, if any. */
    method TryMovingDeviceToUsing(ghost s: SessionId, wanted: Busid) returns (device: Option<Device>)
      requires Valid() && Enabled(now, Import(s)) && now.seats[s].busid == wanted
      modifies this
      ensures Valid() && now == Apply(old(now), Import(s))
      ensures match device
              case Some(d) => now.seats[s] == Holding(wanted, d)
              case None => now.seats[s] == Left
    {
      ghost var before := now;
      now := Apply(now, Import(s));
      device := None;
      var i := 0;
      while i < |available|
        invariant 0 <= i <= |available| && available == before.available && inUse == before.inUse && device.None?
        invariant forall j | 0 <= j < i :: available[j].busid != wanted
      {
        if available[i].busid == wanted {
          device := Some(available[i]);
          inUse := inUse[wanted := available[i]];
          available := Without(available, i);
          return;
        }
        i := i + 1;
      }
    }

    /** Session s gives its device back: the one now registered in use under its busid. */
    method TryMovingDeviceToAvailable(ghost s: SessionId, busid: Busid)
      requires Valid() && Enabled(now, Exit(s)) && now.seats[s].busid == busid
      modifies this
      ensures Valid() && now == Apply(old(now), Exit(s))
    {
      now := Apply(now, Exit(s));
      if busid in inUse {
        available := available + [inUse[busid]];
        inUse := inUse - {busid};
      }
    }

    /** Session s ends with its device unplugged. */
    method EraseUsing(ghost s: SessionId, busid: Busid)
      requires Valid() && Enabled(now, Unplugged(s)) && now.seats[s].busid == busid
      modifies this
      ensures Valid() && now == Apply(old(now), Unplugged(s))
    {
      now := Apply(now, Unplugged(s));
      inUse := inUse - {busid};
    }
  }

  // ----- exclusive use -----

  ghost predicate Holds(st: State, s: SessionId, b: Busid) {
    s in st.seats && st.seats[s].Holding? && st.seats[s].busid == b
  }

  /** The in-use table is exact: each entry is the device of the one session that imported that busid. */
  ghost predicate Exclusive(st: State) {
    && (forall s, b {:trigger Holds(st, s, b)} :: Holds(st, s, b) ==>
          b in st.inUse && st.inUse[b] == st.seats[s].device)
    && (forall s, t, b {:trigger Holds(st, s, b), Holds(st, t, b)} :: Holds(st, s, b) && Holds(st, t, b) ==> s == t)
    && (forall b :: b in st.inUse ==> exists s :: Holds(st, s, b))
  }

  /** An import finds an available device although one with the same busid is in use. */
  predicate Clashes(st: State, step: Label)
    requires Enabled(st, step)
  {
    step.Import? &&
    var b := st.seats[step.s].busid;
    b in st.inUse && exists d <- st.available :: d.busid == b
  }

  lemma SameHolders(st: State, end: State, s: SessionId)
    requires Exclusive(st) && end.inUse == st.inUse && end.seats.Keys == st.seats.Keys + {s}
    requires forall t | t in st.seats && t != s :: end.seats[t] == st.seats[t]
    requires !end.seats[s].Holding? && (s in st.seats ==> !st.seats[s].Holding?)
    ensures Exclusive(end)
  {
    forall t, b ensures Holds(end, t, b) <==> Holds(st, t, b) { }
    forall b | b in end.inUse ensures exists t :: Holds(end, t, b) {
      var t :| Holds(st, t, b);
      assert Holds(end, t, b);
    }
  }

  /** The importing session and the one that holds the busid already would both hold it. */
  lemma ImportIsExclusiveExactlyWhen(st: State, s: SessionId)
    requires Exclusive(st) && Enabled(st, Import(s))
    ensures Exclusive(Apply(st, Import(s))) <==> !Clashes(st, Import(s))
  {
    var end, b := Apply(st, Import(s)), st.seats[s].busid;
    var i := Find(st.available, b);
    if i == |st.available| {
      SameHolders(st, end, s);
    } else {
      assert st.available[i] in st.available;
      forall t, c ensures Holds(end, t, c) <==> (t == s && c == b) || Holds(st, t, c) { }
      assert Holds(end, s, b);
      if b in st.inUse {
        var t :| Holds(st, t, b);
        assert Holds(end, t, b) && t != s;
      } else {
        forall c | c in end.inUse ensures exists t :: Holds(end, t, c) {
          if c != b { var t :| Holds(st, t, c); assert Holds(end, t, c); }
        }
      }
    }
  }

  lemma ReleaseIsExclusive(st: State, s: SessionId, end: State)
    requires Exclusive(st) && s in st.seats && st.seats[s].Holding?
    requires end.seats == st.seats[s := Left] && end.inUse == st.inUse - {st.seats[s].busid}
    ensures Exclusive(end)
  {
    var b := st.seats[s].busid;
    assert Holds(st, s, b);
    forall t, c ensures Holds(end, t, c) <==> t != s && Holds(st, t, c) { }
    forall c | c in end.inUse ensures exists t :: Holds(end, t, c) {
      var t :| Holds(st, t, c);
      assert Holds(end, t, c);
    }
  }

  /** A step keeps exclusive use exactly unless it is a clashing import. */
  lemma StepIsExclusiveExactlyWhen(st: State, step: Label)
    requires Exclusive(st) && Enabled(st, step)
    ensures Exclusive(Apply(st, step)) <==> !Clashes(st, step)
  {
    var end := Apply(st, step);
    match step
    case Add(device) =>
      assert forall s, b :: Holds(end, s, b) <==> Holds(st, s, b);
    case Check(s, busid) => SameHolders(st, end, s);
    case Import(s) => ImportIsExclusiveExactlyWhen(st, s);
    case Exit(s) =>
      assert Holds(st, s, st.seats[s].busid);
      ReleaseIsExclusive(st, s, end);
    case Unplugged(s) => ReleaseIsExclusive(st, s, end);
  }

  ghost predicate IsRun(states: seq<State>, steps: seq<Label>) {
    && |states| == |steps| + 1
    && states[0] == START
    && forall i :: 0 <= i < |steps| ==> Enabled(states[i], steps[i]) && states[i + 1] == Apply(states[i], steps[i])
  }

  ghost predicate ClashedBefore(states: seq<State>, steps: seq<Label>, k: nat)
    requires IsRun(states, steps) && k <= |steps|
  {
    exists j :: 0 <= j < k && Clashes(states[j], steps[j])
  }

  /** In every interleaving of sessions, whatever busids are registered: use has been exclusive all along if and only if
      no import has clashed. */
  lemma {:induction false} ExclusiveExactlyWithoutClash(states: seq<State>, steps: seq<Label>, k: nat)
    requires IsRun(states, steps) && k <= |steps|
    ensures (forall i | 0 <= i <= k :: Exclusive(states[i])) <==> !ClashedBefore(states, steps, k)
  {
    if k == 0 {
      assert Exclusive(START);
    } else {
      ExclusiveExactlyWithoutClash(states, steps, k - 1);
      assert ClashedBefore(states, steps, k)
        <==> ClashedBefore(states, steps, k - 1) || Clashes(states[k - 1], steps[k - 1]);
      if !ClashedBefore(states, steps, k - 1) {
        StepIsExclusiveExactlyWhen(states[k - 1], steps[k - 1]);
        assert states[k] == Apply(states[k - 1], steps[k - 1]);
        forall i | 0 <= i <= k && !ClashedBefore(states, steps, k) ensures Exclusive(states[i]) { }
      }
    }
  }

  // ----- who holds what -----

  /** Devices are filed under their own busid. */
  ghost predicate Named(st: State) {
    && (forall b :: b in st.inUse ==> st.inUse[b].busid == b)
    && (forall s :: s in st.seats && st.seats[s].Holding? ==> st.seats[s].device.busid == st.seats[s].busid)
  }

  lemma {:induction false} AlwaysNamed(states: seq<State>, steps: seq<Label>, k: nat)
    requires IsRun(states, steps) && k <= |steps|
    ensures Named(states[k])
  {
    if k != 0 {
      AlwaysNamed(states, steps, k - 1);
      assert states[k] == Apply(states[k - 1], steps[k - 1]);
    }
  }

  /** As long as no import has clashed, no two sessions hold the same device. */
  lemma NoDeviceIsHeldTwice(states: seq<State>, steps: seq<Label>, k: nat, s: SessionId, t: SessionId)
    requires IsRun(states, steps) && k <= |steps| && !ClashedBefore(states, steps, k) && s != t
    requires s in states[k].seats && t in states[k].seats && states[k].seats[s].Holding? && states[k].seats[t].Holding?
    ensures states[k].seats[s].device != states[k].seats[t].device
  {
    ExclusiveExactlyWithoutClash(states, steps, k);
    AlwaysNamed(states, steps, k);
    assert Holds(states[k], s, states[k].seats[s].busid) && Holds(states[k], t, states[k].seats[t].busid);
  }

  /** As long as no import has clashed, a session that asks for a device is turned away if and only if another session
      holds one of that busid. */
  lemma TurnedAwayExactlyWhenHeld(states: seq<State>, steps: seq<Label>, k: nat, s: SessionId, busid: Busid)
    requires IsRun(states, steps) && k < |steps| && !ClashedBefore(states, steps, k) && steps[k] == Check(s, busid)
    ensures s in states[k + 1].seats && states[k + 1].seats[s] in {Left, Checked(busid)}
    ensures states[k + 1].seats[s] == Left <==> exists t :: Holds(states[k], t, busid)
  {
    ExclusiveExactlyWithoutClash(states, steps, k);
    assert states[k + 1] == Apply(states[k], steps[k]);
  }

  /** A session that was not turned away gets a device if and only if one of that busid is available by then; it is the
      one registered first, and every other stays available. */
  lemma ImportsExactlyWhenAvailable(states: seq<State>, steps: seq<Label>, k: nat, s: SessionId)
    requires IsRun(states, steps) && k < |steps| && steps[k] == Import(s)
    ensures s in states[k].seats && states[k].seats[s].Checked? && s in states[k + 1].seats
    ensures var busid, before, seat := states[k].seats[s].busid, states[k].available, states[k + 1].seats[s];
            && (seat.Holding? || seat == Left)
            && (seat == Left ==> states[k + 1].available == before && states[k + 1].inUse == states[k].inUse)
            && (seat.Holding? <==> exists d <- before :: d.busid == busid)
            && (seat.Holding? ==>
                  exists i: nat :: i < |before| && before[i] == seat.device && seat.device.busid == busid == seat.busid
                    && (forall j | 0 <= j < i :: before[j].busid != busid)
                    && states[k + 1].available == before[..i] + before[i + 1..])
  {
    assert states[k + 1] == Apply(states[k], steps[k]);
    var busid, before := states[k].seats[s].busid, states[k].available;
    var i := Find(before, busid);
    if i < |before| {
      assert before[i] in before;
      assert states[k + 1].available == before[..i] + before[i + 1..];
    }
  }

  // ----- no device is lost -----

  /** How often device d is registered: it may be available, or in use under its busid. */
  function Copies(st: State, d: Device): nat {
    multiset(st.available)[d] + if d.busid in st.inUse && st.inUse[d.busid] == d then 1 else 0
  }

  /** The session's device is unplugged, and d is what the in-use table holds under its busid. */
  predicate TakesOut(st: State, step: Label, d: Device)
    requires Enabled(st, step)
  {
    step.Unplugged? && st.seats[step.s].busid in st.inUse && st.inUse[st.seats[step.s].busid] == d
  }

  /** A clashing import overwrites d in the in-use table. */
  predicate Overwrites(st: State, step: Label, d: Device)
    requires Enabled(st, step)
  {
    Clashes(st, step) && st.inUse[st.seats[step.s].busid] == d
  }

  lemma Removal(devices: seq<Device>, i: nat)
    requires i < |devices|
    ensures multiset(devices) == multiset(Without(devices, i)) + multiset{devices[i]}
  {
    assert devices == devices[..i] + [devices[i]] + devices[i + 1..];
  }

  lemma ImportKeepsDevices(st: State, s: SessionId, d: Device)
    requires Named(st) && Enabled(st, Import(s))
    ensures Copies(Apply(st, Import(s)), d) == Copies(st, d) - (if Overwrites(st, Import(s), d) then 1 else 0)
  {
    var i := Find(st.available, st.seats[s].busid);
    if i < |st.available| {
      assert st.available[i] in st.available;
      Removal(st.available, i);
    }
  }

  lemma ExitKeepsDevices(st: State, s: SessionId, d: Device)
    requires Named(st) && Enabled(st, Exit(s))
    ensures Copies(Apply(st, Exit(s)), d) == Copies(st, d)
  {
  }

  /** Every step keeps every device, but for the one it adds, unplugs or overwrites. */
  lemma StepKeepsDevices(st: State, step: Label, d: Device)
    requires Named(st) && Enabled(st, step)
    ensures Copies(Apply(st, step), d)
         == Copies(st, d) + (if step == Add(d) then 1 else 0)
            - (if TakesOut(st, step, d) then 1 else 0) - (if Overwrites(st, step, d) then 1 else 0)
  {
    match step
    case Import(s) => ImportKeepsDevices(st, s, d);
    case Exit(s) => ExitKeepsDevices(st, s, d);
    case _ =>
  }

  /** How often d was added, less how often it was unplugged while in use, in the first k steps. */
  ghost function Registered(states: seq<State>, steps: seq<Label>, k: nat, d: Device): int
    requires IsRun(states, steps) && k <= |steps|
  {
    if k == 0 then 0
    else
      Registered(states, steps, k - 1, d) + (if steps[k - 1] == Add(d) then 1 else 0)
      - (if TakesOut(states[k - 1], steps[k - 1], d) then 1 else 0)
  }

  ghost predicate OverwrittenBefore(states: seq<State>, steps: seq<Label>, k: nat, d: Device)
    requires IsRun(states, steps) && k <= |steps|
  {
    exists j :: 0 <= j < k && Overwrites(states[j], steps[j], d)
  }

  /** In every interleaving of sessions, whatever busids are registered: a device is still there, available or in use,
      as often as it was added and not unplugged, if and only if no clashing import has overwritten it. */
  lemma {:induction false} NoDeviceIsLostExactlyWhen(states: seq<State>, steps: seq<Label>, k: nat, d: Device)
    requires IsRun(states, steps) && k <= |steps|
    ensures Copies(states[k], d) <= Registered(states, steps, k, d)
    ensures Copies(states[k], d) == Registered(states, steps, k, d) <==> !OverwrittenBefore(states, steps, k, d)
  {
    if k != 0 {
      NoDeviceIsLostExactlyWhen(states, steps, k - 1, d);
      AlwaysNamed(states, steps, k - 1);
      StepKeepsDevices(states[k - 1], steps[k - 1], d);
      assert OverwrittenBefore(states, steps, k, d)
        <==> OverwrittenBefore(states, steps, k - 1, d) || Overwrites(states[k - 1], steps[k - 1], d);
    }
  }

  // ----- unique busids are enough -----

  /** Every busid names one device. */
  ghost predicate Unique(st: State) {
    && (forall i, j :: 0 <= i < j < |st.available| ==> st.available[i].busid != st.available[j].busid)
    && (forall i :: 0 <= i < |st.available| ==> st.available[i].busid !in st.inUse)
    && (forall b :: b in st.inUse ==> st.inUse[b].busid == b)
  }

  /** A device is added under a busid no registered device has. */
  ghost predicate FreshBusid(st: State, step: Label) {
    step.Add? ==> step.device.busid !in st.inUse && forall d | d in st.available :: d.busid != step.device.busid
  }

  lemma StepIsUnique(st: State, step: Label)
    requires Unique(st) && Enabled(st, step) && FreshBusid(st, step)
    ensures Unique(Apply(st, step)) && !Clashes(st, step)
  {
    if step.Add? { assert st.available[|st.available|..] == []; }
  }

  /** If devices are only ever added under a fresh busid, no import clashes, so use is exclusive. */
  lemma {:induction false} ImportsAreExclusive(states: seq<State>, steps: seq<Label>, k: nat)
    requires IsRun(states, steps) && k <= |steps|
    requires forall i | 0 <= i < |steps| :: FreshBusid(states[i], steps[i])
    ensures Unique(states[k]) && Exclusive(states[k]) && !ClashedBefore(states, steps, k)
  {
    if k != 0 {
      ImportsAreExclusive(states, steps, k - 1);
      StepIsUnique(states[k - 1], steps[k - 1]);
    }
    ExclusiveExactlyWithoutClash(states, steps, k);
  }

  // ----- what a shared busid does -----

  lemma Extend(states: seq<State>, steps: seq<Label>, step: Label)
    requires IsRun(states, steps) && Enabled(states[|steps|], step)
    ensures IsRun(states + [Apply(states[|steps|], step)], steps + [step])
  {
  }

  const FIRST := Device("1-1", 0)
  const SECOND := Device("1-1", 1)

  const BOTH_ASKED := State([FIRST, SECOND], map[], map[1 := Checked("1-1"), 2 := Checked("1-1")])

  lemma BothAsk() returns (states: seq<State>, steps: seq<Label>)
    ensures IsRun(states, steps) && states[|steps|] == BOTH_ASKED
  {
    var empty: map<SessionId, Seat> := map[];
    states, steps := [START], [];
    Extend(states, steps, Add(FIRST));
    states, steps := states + [State([FIRST], map[], empty)], steps + [Add(FIRST)];
    Extend(states, steps, Add(SECOND));
    var s := State([FIRST, SECOND], map[], empty);
    states, steps := states + [s], steps + [Add(SECOND)];
    Extend(states, steps, Check(1, "1-1"));
    states, steps := states + [Apply(s, Check(1, "1-1"))], steps + [Check(1, "1-1")];
    s := s.(seats := map[1 := Checked("1-1")]);
    assert states[|steps|] == s;
    Extend(states, steps, Check(2, "1-1"));
    states, steps := states + [Apply(s, Check(2, "1-1"))], steps + [Check(2, "1-1")];
  }

  /** Both sessions ask before either imports: the second import replaces the first in the in-use table. */
  lemma OverlappingImports() returns (states: seq<State>, steps: seq<Label>)
    ensures IsRun(states, steps)
    ensures states[|steps|]
         == State([], map["1-1" := SECOND], map[1 := Holding("1-1", FIRST), 2 := Holding("1-1", SECOND)])
  {
    states, steps := BothAsk();
    Extend(states, steps, Import(1));
    var s := State([SECOND], map["1-1" := FIRST], BOTH_ASKED.seats[1 := Holding("1-1", FIRST)]);
    assert Apply(BOTH_ASKED, Import(1)) == s;
    states, steps := states + [s], steps + [Import(1)];
    Extend(states, steps, Import(2));
    states, steps := states + [Apply(s, Import(2))], steps + [Import(2)];
  }

  /** ... and once the first session leaves, a third can import the device the second still holds; the first device
      is in neither collection. */
  lemma SharedBusidExample() returns (states: seq<State>, steps: seq<Label>)
    ensures IsRun(states, steps)
    ensures var end := states[|steps|];
            && 2 in end.seats && 3 in end.seats && end.seats[2] == end.seats[3] == Holding("1-1", SECOND)
            && FIRST !in end.available && FIRST !in end.inUse.Values
  {
    states, steps := OverlappingImports();
    var s := states[|steps|];
    Extend(states, steps, Exit(1));
    states, steps := states + [Apply(s, Exit(1))], steps + [Exit(1)];
    s := State([SECOND], map[], map[1 := Left, 2 := Holding("1-1", SECOND)]);
    assert states[|steps|] == s;
    Extend(states, steps, Check(3, "1-1"));
    states, steps := states + [Apply(s, Check(3, "1-1"))], steps + [Check(3, "1-1")];
    s := s.(seats := s.seats[3 := Checked("1-1")]);
    assert states[|steps|] == s;
    Extend(states, steps, Import(3));
    states, steps := states + [Apply(s, Import(3))], steps + [Import(3)];
  }
}
