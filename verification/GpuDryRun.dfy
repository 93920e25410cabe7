/**
 The dry run of a plan: which GPUs of which workers would take which experiments right now.
 */
module GpuDryRun {

  datatype Option<T> = None | Some(value: T)

  /** One GPU as a worker reports it; an empty id could not be read. */
  datatype Row = Row(id: string, util: Option<real>, memory: Option<real>, processes: nat)

  datatype Snapshot = Rows(rows: seq<Row>) | Lists(available: seq<string>, busy: seq<string>)

  datatype Cap = Auto | Limit(value: real) | Unreadable

  datatype Worker = Worker(
    id: string,
    known: bool,
    age: Option<int>,
    ttl: int,
    gpuQueryFailed: bool,
    unavailable: bool,
    snapshot: Snapshot,
    utilThreshold: Option<real>,
    memoryThreshold: Option<real>,
    cap: Cap
  )

  datatype Error = Missing | Stale | GpuQueryFailed | Unavailable

  /** What a worker has to offer before anything is assigned: idle GPUs in order, and busy ones. */
  datatype Offer = NoOffer(error: Error) | Offer(available: seq<string>, busy: set<string>)

  datatype Slot = Slot(worker: string, gpu: string, experiment: nat)

  type Active = map<string, Slot>

  // ---- probing one worker ----

  function Or(a: Option<real>, otherwise: real): real {
    if a.Some? then a.value else otherwise
  }

  /** Idle means below both thresholds; without both readings, having no process. */
  predicate IsBusy(row: Row, worker: Worker) {
    if row.util.Some? && row.memory.Some? then
      !(row.util.value < Or(worker.utilThreshold, 5.0) && row.memory.value < Or(worker.memoryThreshold, 200.0))
    else row.processes > 0
  }

  function IdsOf(rows: seq<Row>, worker: Worker, busy: bool): seq<string> {
    if rows == [] then []
    else
      (if rows[0].id != "" && IsBusy(rows[0], worker) == busy then [rows[0].id] else []) +
        IdsOf(rows[1..], worker, busy)
  }

  function Named(ids: seq<string>): seq<string> {
    if ids == [] then [] else (if ids[0] != "" then [ids[0]] else []) + Named(ids[1..])
  }

  function Offered(worker: Worker): Offer {
    if !worker.known then NoOffer(Missing)
    else if worker.age.None? || worker.age.value > worker.ttl then NoOffer(Stale)
    else if worker.gpuQueryFailed then NoOffer(GpuQueryFailed)
    else if (worker.snapshot.Lists? || worker.snapshot.rows == []) && worker.unavailable then NoOffer(Unavailable)
    else
      match worker.snapshot
      case Rows(rows) => Offer(IdsOf(rows, worker, false), set id | id in IdsOf(rows, worker, true))
      case Lists(available, busy) => Offer(Named(available), set id | id in Named(busy))
  }

  function ActiveSlots(worker: Worker, active: Active): set<string> {
    set key | key in active && active[key].worker == worker.id
  }

  function ActiveGpus(worker: Worker, active: Active): set<string> {
    set key | key in active && active[key].worker == worker.id && active[key].gpu != "" :: active[key].gpu
  }

  /** Rounding toward zero. */
  function Truncated(r: real): int {
    if r >= 0.0 then r.Floor else -((-r).Floor)
  }

  /** No limit, or 0, means all GPUs; a limit is kept within 1 and the number of GPUs. */
  function Capacity(cap: Cap, total: nat): nat {
    if cap.Auto? || cap.Unreadable? || cap.value == 0.0 then total
    else if total == 0 then 0
    else
      var wanted := if Truncated(cap.value) < total then Truncated(cap.value) else total;
      if wanted < 1 then 1 else wanted
  }

  function Digits(n: nat): string {
    if n < 10 then [('0' as int + n) as char] else Digits(n / 10) + [('0' as int + n % 10) as char]
  }

  function ShortKey(worker: string, gpu: string): string {
    worker + ":" + gpu
  }

  function Key(slot: Slot): string {
    ShortKey(slot.worker, slot.gpu) + ":" + Digits(slot.experiment)
  }

  predicate IsFree(worker: Worker, active: Active, busy: set<string>, gpu: string) {
    ShortKey(worker.id, gpu) !in active && gpu !in ActiveGpus(worker, active) && gpu !in busy
  }

  function FreeOf(worker: Worker, active: Active, busy: set<string>, gpus: seq<string>): seq<string> {
    if gpus == [] then []
    else
      var last := |gpus| - 1;
      FreeOf(worker, active, busy, gpus[..last]) +
        (if IsFree(worker, active, busy, gpus[last]) then [gpus[last]] else [])
  }

  function FirstN<T>(s: seq<T>, n: nat): seq<T> {
    if n <= |s| then s[..n] else s
  }

  /** How many more GPUs of the worker may be taken. */
  function Room(worker: Worker, active: Active): nat
    requires Offered(worker).Offer?
  {
    var offer := Offered(worker);
    var capacity := Capacity(worker.cap, |offer.available| + |offer.busy + ActiveGpus(worker, active)|);
    if |ActiveSlots(worker, active)| >= capacity then 0 else capacity - |ActiveSlots(worker, active)|
  }

  /** The GPUs of a worker that may be assigned now. */
  function IdleGpus(worker: Worker, active: Active): seq<string> {
    var offer := Offered(worker);
    if offer.NoOffer? then [] else FirstN(FreeOf(worker, active, offer.busy, offer.available), Room(worker, active))
  }

  datatype Reason = ActiveSlot | Busy | CapacityLimit

  datatype Refusal = Refusal(gpu: Option<string>, reason: Reason)

  datatype Probe = Probe(worker: string, idle: seq<string>, rejected: seq<Refusal>, error: Option<Error>)

  /** Why a GPU was passed over: the worker is full, or the GPU is taken or busy. */
  ghost predicate Justified(worker: Worker, active: Active, refusal: Refusal) {
    if refusal.gpu.None? then refusal.reason == CapacityLimit && Offered(worker).Offer? && Room(worker, active) == 0
    else
      && Offered(worker).Offer? && refusal.gpu.value in Offered(worker).available
      && match refusal.reason
         case ActiveSlot =>
           ShortKey(worker.id, refusal.gpu.value) in active || refusal.gpu.value in ActiveGpus(worker, active)
         case Busy => refusal.gpu.value in Offered(worker).busy
         case CapacityLimit => false
  }

  method ProbeIdleGpus(worker: Worker, active: Active) returns (probe: Probe)
    ensures probe.worker == worker.id && probe.idle == IdleGpus(worker, active)
    ensures probe.error == if Offered(worker).NoOffer? then Some(Offered(worker).error) else None
    ensures forall refusal :: refusal in probe.rejected ==> Justified(worker, active, refusal)
    ensures Offered(worker).Offer? && probe.idle == [] && Offered(worker).available != [] ==> probe.rejected != []
  {
    hide Offered, ActiveGpus, ActiveSlots, Capacity, FreeOf;
    var offer := Offered(worker);
    if offer.NoOffer? { return Probe(worker.id, [], [], Some(offer.error)); }
    var capacity := Capacity(worker.cap, |offer.available| + |offer.busy + ActiveGpus(worker, active)|);
    var count := |ActiveSlots(worker, active)|;
    if count >= capacity {
      return Probe(worker.id, [], [Refusal(None, CapacityLimit)], None);
    }
    var idle, rejected := ScanGpus(worker, active, offer.available, offer.busy, capacity - count);
    probe := Probe(worker.id, idle, rejected, None);
  }

  /** Go through the idle GPUs in order until `room` of them are free. */
  method ScanGpus(worker: Worker, active: Active, gpus: seq<string>, busy: set<string>, room: nat)
    returns (idle: seq<string>, rejected: seq<Refusal>)
    requires room > 0 && Offered(worker) == Offer(gpus, busy)
    ensures idle == FirstN(FreeOf(worker, active, busy, gpus), room)
    ensures forall refusal :: refusal in rejected ==> Justified(worker, active, refusal)
    ensures idle == [] && gpus != [] ==> rejected != []
  {
    hide Offered, ActiveGpus, FreeOf, Justified;
    idle, rejected := [], [];
    assert gpus[..0] == [];
    NothingFree(worker, active, busy);
    for i := 0 to |gpus|
      invariant idle == FreeOf(worker, active, busy, gpus[..i]) && |idle| < room
      invariant forall refusal :: refusal in rejected ==> Justified(worker, active, refusal)
      invariant i > 0 ==> idle != [] || rejected != []
    {
      var gpu := gpus[i];
      FreeStep(worker, active, busy, gpus, i);
      Excuses(worker, active, gpu);
      if ShortKey(worker.id, gpu) in active || gpu in ActiveGpus(worker, active) {
        rejected := rejected + [Refusal(Some(gpu), ActiveSlot)];
      } else if gpu in busy {
        rejected := rejected + [Refusal(Some(gpu), Busy)];
      } else {
        idle := idle + [gpu];
        if |idle| >= room {
          FreeGrows(worker, active, busy, gpus, i + 1);
          return;
        }
      }
    }
    assert gpus[..|gpus|] == gpus;
  }

  lemma NothingFree(worker: Worker, active: Active, busy: set<string>)
    ensures FreeOf(worker, active, busy, []) == []
  {
  }

  lemma Excuses(worker: Worker, active: Active, gpu: string)
    requires Offered(worker).Offer? && gpu in Offered(worker).available
    ensures Justified(worker, active, Refusal(Some(gpu), ActiveSlot)) <==>
            ShortKey(worker.id, gpu) in active || gpu in ActiveGpus(worker, active)
    ensures Justified(worker, active, Refusal(Some(gpu), Busy)) <==> gpu in Offered(worker).busy
  {
  }

  lemma FreeStep(worker: Worker, active: Active, busy: set<string>, gpus: seq<string>, i: nat)
    requires i < |gpus|
    ensures FreeOf(worker, active, busy, gpus[..i + 1]) ==
      FreeOf(worker, active, busy, gpus[..i]) + (if IsFree(worker, active, busy, gpus[i]) then [gpus[i]] else [])
  {
    assert gpus[..i + 1][..i] == gpus[..i];
  }

  /** What is free in the first gpus comes first in what is free. */
  lemma {:induction false} FreeGrows(worker: Worker, active: Active, busy: set<string>, gpus: seq<string>, i: nat)
    requires i <= |gpus|
    ensures FreeOf(worker, active, busy, gpus[..i]) <= FreeOf(worker, active, busy, gpus)
    decreases |gpus|
  {
    if i < |gpus| {
      FreeGrows(worker, active, busy, gpus[..|gpus| - 1], i);
      assert gpus[..|gpus| - 1][..i] == gpus[..i];
    } else {
      assert gpus[..i] == gpus;
    }
  }

  // ---- the dry run ----

  function ActiveOf(slots: seq<Slot>): Active {
    if slots == [] then map[]
    else ActiveOf(slots[..|slots| - 1])[Key(slots[|slots| - 1]) := slots[|slots| - 1]]
  }

  /** The slots that `gpus` of a worker make with the experiments, as far as both go. */
  function Slots(worker: string, gpus: seq<string>, experiments: seq<nat>): (r: seq<Slot>)
    ensures |r| == if |gpus| < |experiments| then |gpus| else |experiments|
    ensures forall i :: 0 <= i < |r| ==> r[i] == Slot(worker, gpus[i], experiments[i])
  {
    if gpus == [] || experiments == [] then []
    else [Slot(worker, gpus[0], experiments[0])] + Slots(worker, gpus[1..], experiments[1..])
  }

  /** The slots given out when the workers are served in turn. */
  function Assigned(workers: seq<Worker>, experiments: seq<nat>): (r: seq<Slot>)
    ensures |r| <= |experiments|
  {
    if workers == [] then []
    else
      var before := Assigned(workers[..|workers| - 1], experiments);
      var worker := workers[|workers| - 1];
      before + Slots(worker.id, IdleGpus(worker, ActiveOf(before)), experiments[|before|..])
  }

  method DryRun(workers: seq<Worker>, experiments: seq<nat>)
      returns (assignments: seq<Slot>, queue: seq<nat>, probes: seq<Probe>)
    ensures assignments == Assigned(workers, experiments)
    ensures queue == experiments[|assignments|..]
    ensures |probes| == |workers|
    ensures forall k :: 0 <= k < |workers| ==> Probed(workers, experiments, k, probes[k])
  {
    hide IdleGpus, ActiveOf, Probed, Assigned, Slots;
    NoneAssigned(experiments);
    var active: Active := map[];
    assignments, queue, probes := [], experiments, [];
    assert ActiveOf([]) == map[] by { NothingActive(); }
    for k := 0 to |workers|
      invariant assignments == Assigned(workers[..k], experiments) && active == ActiveOf(assignments)
      invariant queue == experiments[|assignments|..] && |probes| == k
      invariant forall i :: 0 <= i < k ==> Probed(workers, experiments, i, probes[i])
    {
      var probe := ProbeIdleGpus(workers[k], active);
      AssignedStep(workers, experiments, k);
      assert Probed(workers, experiments, k, probe) by { ProbedIs(workers, experiments, k, probe); }
      probes := probes + [probe];
      assignments, active, queue := Serve(workers[k].id, probe.idle, assignments, active, queue);
    }
    assert workers[..|workers|] == workers;
  }

  /** The probe is of the k-th worker, made with everything assigned to the workers before it. */
  ghost predicate Probed(workers: seq<Worker>, experiments: seq<nat>, k: nat, probe: Probe)
    requires k < |workers|
  {
    probe.worker == workers[k].id && probe.idle == IdleGpus(workers[k], ActiveOf(Assigned(workers[..k], experiments)))
  }

  lemma ProbedIs(workers: seq<Worker>, experiments: seq<nat>, k: nat, probe: Probe)
    requires k < |workers|
    ensures Probed(workers, experiments, k, probe) <==>
      probe.worker == workers[k].id && probe.idle == IdleGpus(workers[k], ActiveOf(Assigned(workers[..k], experiments)))
  {
  }

  lemma NothingActive()
    ensures ActiveOf([]) == map[]
  {
  }

  lemma NoneAssigned(experiments: seq<nat>)
    ensures Assigned([], experiments) == []
  {
  }

  lemma AssignedStep(workers: seq<Worker>, experiments: seq<nat>, k: nat)
    requires k < |workers|
    ensures var before := Assigned(workers[..k], experiments);
            Assigned(workers[..k + 1], experiments) ==
              before + Slots(workers[k].id, IdleGpus(workers[k], ActiveOf(before)), experiments[|before|..])
  {
    assert workers[..k + 1][..k] == workers[..k];
  }

  lemma OneMoreActive(slots: seq<Slot>, slot: Slot)
    ensures ActiveOf(slots + [slot]) == ActiveOf(slots)[Key(slot) := slot]
  {
    assert (slots + [slot])[..|slots|] == slots;
  }

  /** Give the GPUs of one worker to the experiments at the front of the queue. */
  method Serve(worker: string, gpus: seq<string>, given: seq<Slot>, occupied: Active, waiting: seq<nat>)
    returns (assignments: seq<Slot>, active: Active, queue: seq<nat>)
    requires occupied == ActiveOf(given)
    ensures assignments == given + Slots(worker, gpus, waiting)
    ensures active == ActiveOf(assignments)
    ensures queue == waiting[|Slots(worker, gpus, waiting)|..]
  {
    hide ActiveOf, Key;
    assignments, active, queue := given, occupied, waiting;
    var slots := Slots(worker, gpus, waiting);
    for g := 0 to |gpus|
      invariant g <= |slots| && queue == waiting[g..]
      invariant assignments == given + slots[..g] && active == ActiveOf(assignments)
    {
      if queue == [] {
        assert slots[..g] == slots;
        return;
      }
      var slot := Slot(worker, gpus[g], queue[0]);
      OneMoreActive(assignments, slot);
      active := active[Key(slot) := slot];
      assignments := assignments + [slot];
      queue := queue[1..];
    }
    assert slots[..|slots|] == slots;
  }

  // ---- slot keys ----

  predicate HasColon(s: string) {
    exists i :: 0 <= i < |s| && s[i] == ':'
  }

  /** What comes after the last colon. */
  function Tail(s: string): string {
    if HasColon(s) then Tail(s[1..]) else s
  }

  lemma {:induction false} TailOf(prefix: string, tail: string)
    requires !HasColon(tail)
    ensures Tail(prefix + ":" + tail) == tail
  {
    var whole := prefix + ":" + tail;
    assert whole[|prefix|] == ':';
    if prefix == "" {
      assert whole[1..] == tail;
    } else {
      assert whole[1..] == prefix[1..] + ":" + tail;
      TailOf(prefix[1..], tail);
    }
  }

  lemma {:induction false} DigitsAreDigits(n: nat)
    ensures Digits(n) != "" && forall i :: 0 <= i < |Digits(n)| ==> '0' <= Digits(n)[i] <= '9'
  {
    if n >= 10 { DigitsAreDigits(n / 10); }
  }

  lemma {:induction false} DigitsDiffer(a: nat, b: nat)
    requires Digits(a) == Digits(b)
    ensures a == b
  {
    DigitsAreDigits(a / 10);
    DigitsAreDigits(b / 10);
    if a >= 10 && b >= 10 {
      var p, q := Digits(a / 10), Digits(b / 10);
      var c, d := [('0' as int + a % 10) as char], [('0' as int + b % 10) as char];
      assert |p + c| == |q + d|;
      assert (p + c)[..|p|] == p && (q + d)[..|q|] == q;
      assert (p + c)[|p|] == c[0] && (q + d)[|q|] == d[0];
      DigitsDiffer(a / 10, b / 10);
    }
  }

  /** Slots of different experiments have different keys, whatever is in the names. */
  lemma KeysDiffer(a: Slot, b: Slot)
    requires Key(a) == Key(b)
    ensures a.experiment == b.experiment
  {
    DigitsAreDigits(a.experiment);
    DigitsAreDigits(b.experiment);
    TailOf(ShortKey(a.worker, a.gpu), Digits(a.experiment));
    TailOf(ShortKey(b.worker, b.gpu), Digits(b.experiment));
    DigitsDiffer(a.experiment, b.experiment);
  }

  ghost predicate Distinct<T(!new)>(s: seq<T>) {
    forall i, j :: 0 <= i < j < |s| ==> s[i] != s[j]
  }

  ghost predicate DistinctExperiments(slots: seq<Slot>) {
    forall i, j :: 0 <= i < j < |slots| ==> slots[i].experiment != slots[j].experiment
  }

  function CountOf(slots: seq<Slot>, worker: string): nat {
    if slots == [] then 0
    else CountOf(slots[..|slots| - 1], worker) + (if slots[|slots| - 1].worker == worker then 1 else 0)
  }

  /** The active map holds exactly the slots. */
  ghost predicate Holds(active: Active, slots: seq<Slot>) {
    && (forall i :: 0 <= i < |slots| ==> Key(slots[i]) in active && active[Key(slots[i])] == slots[i])
    && (forall key :: key in active ==> active[key] in slots && key == Key(active[key]))
  }

  lemma {:induction false} ActiveHolds(slots: seq<Slot>)
    requires DistinctExperiments(slots)
    ensures Holds(ActiveOf(slots), slots)
  {
    if slots != [] {
      var last := |slots| - 1;
      var front := slots[..last];
      ActiveHolds(front);
      hide Key, Holds;
      forall i | 0 <= i < last ensures Key(front[i]) != Key(slots[last]) {
        if Key(front[i]) == Key(slots[last]) { KeysDiffer(front[i], slots[last]); }
      }
      HoldsMore(ActiveOf(front), front, slots[last]);
      assert slots == front + [slots[last]];
    }
  }

  lemma HoldsMore(active: Active, slots: seq<Slot>, slot: Slot)
    requires Holds(active, slots) && forall i :: 0 <= i < |slots| ==> Key(slots[i]) != Key(slot)
    ensures Holds(active[Key(slot) := slot], slots + [slot])
  {
    hide Key;
    var more := active[Key(slot) := slot];
    forall key | key in more ensures more[key] in slots + [slot] && key == Key(more[key]) {
      assert slot in slots + [slot];
    }
  }

  lemma {:induction false} ActiveCounts(slots: seq<Slot>, worker: Worker)
    requires DistinctExperiments(slots)
    ensures |ActiveSlots(worker, ActiveOf(slots))| == CountOf(slots, worker.id)
  {
    if slots == [] {
      assert ActiveSlots(worker, ActiveOf(slots)) == {};
    } else {
      var last := |slots| - 1;
      var front := slots[..last];
      ActiveCounts(front, worker);
      NewKey(slots);
      hide Key;
      var before, key := ActiveSlots(worker, ActiveOf(front)), Key(slots[last]);
      assert ActiveSlots(worker, ActiveOf(slots)) == before + if slots[last].worker == worker.id then {key} else {};
    }
  }

  lemma NewKey(slots: seq<Slot>)
    requires slots != [] && DistinctExperiments(slots)
    ensures Key(slots[|slots| - 1]) !in ActiveOf(slots[..|slots| - 1])
  {
    var last := slots[|slots| - 1];
    var front := slots[..|slots| - 1];
    ActiveHolds(front);
    if Key(last) in ActiveOf(front) {
      var i :| 0 <= i < |front| && front[i] == ActiveOf(front)[Key(last)];
      KeysDiffer(front[i], last);
    }
  }

  // ---- what the dry run promises ----

  /** Experiments are given out from the front of the list, one slot each. */
  lemma {:induction false} ServedInOrder(workers: seq<Worker>, experiments: seq<nat>)
    ensures var slots := Assigned(workers, experiments);
            forall i :: 0 <= i < |slots| ==> slots[i].experiment == experiments[i]
  {
    if workers != [] { ServedInOrder(workers[..|workers| - 1], experiments); }
  }

  lemma AssignedDistinct(workers: seq<Worker>, experiments: seq<nat>)
    requires Distinct(experiments)
    ensures DistinctExperiments(Assigned(workers, experiments))
  {
    ServedInOrder(workers, experiments);
  }

  lemma {:induction false} FreeOfIs(worker: Worker, active: Active, busy: set<string>, gpus: seq<string>)
    ensures var free := FreeOf(worker, active, busy, gpus);
            && (forall gpu :: gpu in free <==> gpu in gpus && IsFree(worker, active, busy, gpu))
            && (Distinct(gpus) ==> Distinct(free))
  {
    if gpus != [] {
      var last := |gpus| - 1;
      FreeOfIs(worker, active, busy, gpus[..last]);
      hide IsFree;
      assert forall gpu :: gpu in gpus <==> gpu in gpus[..last] || gpu == gpus[last];
      if Distinct(gpus) {
        assert gpus[last] !in gpus[..last];
      }
    }
  }

  lemma {:induction false} NamedIs(ids: seq<string>)
    ensures forall id :: id in Named(ids) <==> id in ids && id != ""
  {
    if ids != [] { NamedIs(ids[1..]); }
  }

  lemma {:induction false} IdsOfIs(rows: seq<Row>, worker: Worker, busy: bool)
    ensures forall id :: id in IdsOf(rows, worker, busy) <==>
            id != "" && exists row :: row in rows && row.id == id && IsBusy(row, worker) == busy
  {
    hide IsBusy;
    if rows != [] {
      IdsOfIs(rows[1..], worker, busy);
      assert forall row :: row in rows <==> row == rows[0] || row in rows[1..];
    }
  }

  /** A snapshot says a GPU is idle: it lists the GPU as idle, and nowhere as busy. */
  ghost predicate SaysIdle(worker: Worker, gpu: string) {
    && gpu != ""
    && match worker.snapshot
       case Rows(rows) =>
         (exists row :: row in rows && row.id == gpu) &&
           forall row :: row in rows && row.id == gpu ==> !IsBusy(row, worker)
       case Lists(available, busy) => gpu in available && gpu !in busy
  }

  lemma IdleSaysIdle(worker: Worker, active: Active, gpu: string)
    requires gpu in IdleGpus(worker, active)
    ensures Offered(worker).Offer? && SaysIdle(worker, gpu)
    ensures IsFree(worker, active, Offered(worker).busy, gpu) && gpu in Offered(worker).available
  {
    var offer := Offered(worker);
    FreeOfIs(worker, active, offer.busy, offer.available);
    hide Room, IsFree, FreeOf;
    assert IsFree(worker, active, offer.busy, gpu) && gpu in offer.available;
    FreeIsNotBusy(worker, active, offer.busy, gpu);
    OfferSaysIdle(worker, gpu);
  }

  lemma FreeIsNotBusy(worker: Worker, active: Active, busy: set<string>, gpu: string)
    requires IsFree(worker, active, busy, gpu)
    ensures gpu !in busy && gpu !in ActiveGpus(worker, active)
  {
  }

  lemma OfferSaysIdle(worker: Worker, gpu: string)
    requires Offered(worker).Offer? && gpu in Offered(worker).available && gpu !in Offered(worker).busy
    ensures SaysIdle(worker, gpu)
  {
    hide IsBusy;
    match worker.snapshot
    case Rows(rows) =>
      IdsOfIs(rows, worker, false);
      IdsOfIs(rows, worker, true);
    case Lists(available, busy) =>
      NamedIs(available);
      NamedIs(busy);
  }

  /** Every GPU given out was idle in a snapshot of its worker, and none is given out while a snapshot calls it busy. */
  lemma {:induction false} AssignedWereIdle(workers: seq<Worker>, experiments: seq<nat>, i: nat)
    requires i < |Assigned(workers, experiments)|
    ensures exists k: nat :: k < |workers| && GivesIdle(workers[k], Assigned(workers, experiments)[i])
  {
    hide IdleGpus, SaysIdle, ActiveOf, GivesIdle;
    var last := |workers| - 1;
    var before := Assigned(workers[..last], experiments);
    if i < |before| {
      AssignedWereIdle(workers[..last], experiments, i);
      var k: nat :| k < last && GivesIdle(workers[..last][k], before[i]);
      assert GivesIdle(workers[k], before[i]);
    } else {
      var gpu := IdleGpus(workers[last], ActiveOf(before))[i - |before|];
      IdleGivesIdle(workers[last], ActiveOf(before), gpu, Assigned(workers, experiments)[i].experiment);
    }
  }

  lemma IdleGivesIdle(worker: Worker, active: Active, gpu: string, experiment: nat)
    requires gpu in IdleGpus(worker, active)
    ensures GivesIdle(worker, Slot(worker.id, gpu, experiment))
  {
    IdleSaysIdle(worker, active, gpu);
  }

  ghost predicate GivesIdle(worker: Worker, slot: Slot) {
    worker.id == slot.worker && Offered(worker).Offer? && SaysIdle(worker, slot.gpu)
  }

  ghost predicate NoGpuTwice(slots: seq<Slot>) {
    forall i, j :: 0 <= i < j < |slots| ==> slots[i].worker != slots[j].worker || slots[i].gpu != slots[j].gpu
  }

  /** Every snapshot lists its idle GPUs once each. */
  ghost predicate DistinctOffers(workers: seq<Worker>) {
    forall k :: 0 <= k < |workers| && Offered(workers[k]).Offer? ==> Distinct(Offered(workers[k]).available)
  }

  /** In each worker's turn the idle GPUs it gives out, as far as experiments are left, are different ones. */
  ghost predicate TakesEachOnce(workers: seq<Worker>, experiments: seq<nat>) {
    workers != [] ==>
      var before := Assigned(workers[..|workers| - 1], experiments);
      && TakesEachOnce(workers[..|workers| - 1], experiments)
      && Distinct(FirstN(IdleGpus(workers[|workers| - 1], ActiveOf(before)), |experiments| - |before|))
  }

  /** No GPU is given out twice exactly when none is in one turn: what earlier turns gave is not offered again. */
  lemma {:induction false} AssignedOnceIff(workers: seq<Worker>, experiments: seq<nat>)
    requires Distinct(experiments)
    ensures NoGpuTwice(Assigned(workers, experiments)) <==> TakesEachOnce(workers, experiments)
  {
    if workers != [] {
      var last := |workers| - 1;
      var before := Assigned(workers[..last], experiments);
      AssignedOnceIff(workers[..last], experiments);
      AssignedDistinct(workers[..last], experiments);
      IdleIsNew(workers[last], before);
      hide IdleGpus, ActiveOf;
      NewSlotsAreNew(before, workers[last].id, IdleGpus(workers[last], ActiveOf(before)), experiments[|before|..]);
    }
  }

  /** When no snapshot lists a GPU twice, none is given out twice, even when its worker is listed twice. */
  lemma {:induction false} AssignedOnce(workers: seq<Worker>, experiments: seq<nat>)
    requires Distinct(experiments) && DistinctOffers(workers)
    ensures NoGpuTwice(Assigned(workers, experiments))
  {
    OffersTakeOnce(workers, experiments);
    AssignedOnceIff(workers, experiments);
  }

  lemma {:induction false} OffersTakeOnce(workers: seq<Worker>, experiments: seq<nat>)
    requires DistinctOffers(workers)
    ensures TakesEachOnce(workers, experiments)
  {
    if workers != [] {
      var last := |workers| - 1;
      OffersTakeOnce(workers[..last], experiments);
      IdleIsDistinct(workers[last], ActiveOf(Assigned(workers[..last], experiments)));
      hide IdleGpus, ActiveOf, Offered;
    }
  }

  lemma IdleIsDistinct(worker: Worker, active: Active)
    requires Offered(worker).Offer? ==> Distinct(Offered(worker).available)
    ensures Distinct(IdleGpus(worker, active))
  {
    hide Offered, Room, FreeOf, ActiveGpus, IsFree;
    var offer := Offered(worker);
    if offer.Offer? { FreeOfIs(worker, active, offer.busy, offer.available); }
  }

  /** A worker with a single GPU, which its list of available ones names twice. */
  function TwiceListed(): (r: Worker)
    ensures r.id == "w"
  {
    Worker("w", true, Some(0), 60, false, false, Lists(["0", "0"], []), None, None, Auto)
  }

  lemma TwiceListedIsIdle()
    ensures IdleGpus(TwiceListed(), map[]) == ["0", "0"]
  {}

  /** Such a worker has its GPU given to two experiments. */
  lemma GpuListedTwiceIsAssignedTwice()
    ensures Assigned([TwiceListed()], [0, 1]) == [Slot("w", "0", 0), Slot("w", "0", 1)]
  {
    TwiceListedIsIdle();
    hide IdleGpus, TwiceListed, Slots;
    assert [TwiceListed()][..0] == [] && ActiveOf([]) == map[] && [0, 1][0..] == [0, 1];
  }

  lemma IdleIsNew(worker: Worker, before: seq<Slot>)
    requires DistinctExperiments(before)
    ensures var idle := IdleGpus(worker, ActiveOf(before));
            forall i :: 0 <= i < |before| && before[i].worker == worker.id ==> before[i].gpu !in idle
  {
    ActiveHolds(before);
    var active, offer := ActiveOf(before), Offered(worker);
    hide Offered, ActiveOf, Key, Room, FreeOf, ActiveGpus, IsFree, SaysIdle;
    forall i | 0 <= i < |before| && before[i].worker == worker.id ensures before[i].gpu !in IdleGpus(worker, active) {
      HeldIsActive(worker, active, before, i);
      if before[i].gpu in IdleGpus(worker, active) {
        IdleSaysIdle(worker, active, before[i].gpu);
        FreeIsNotBusy(worker, active, offer.busy, before[i].gpu);
        NoNameIsNotIdle(worker);
        assert false;
      }
    }
  }

  lemma NoNameIsNotIdle(worker: Worker)
    ensures !SaysIdle(worker, "")
  {
  }

  lemma HeldIsActive(worker: Worker, active: Active, slots: seq<Slot>, i: nat)
    requires Holds(active, slots) && i < |slots| && slots[i].worker == worker.id
    ensures slots[i].gpu == "" || slots[i].gpu in ActiveGpus(worker, active)
  {
    hide Key;
    assert active[Key(slots[i])] == slots[i];
  }

  lemma NewSlotsAreNew(before: seq<Slot>, worker: string, gpus: seq<string>, experiments: seq<nat>)
    requires forall i :: 0 <= i < |before| && before[i].worker == worker ==> before[i].gpu !in gpus
    ensures NoGpuTwice(before + Slots(worker, gpus, experiments)) <==>
            NoGpuTwice(before) && Distinct(FirstN(gpus, |experiments|))
  {
    PartsAreNew(before, Slots(worker, gpus, experiments));
    TakenAreNew(worker, gpus, experiments);
    hide NoGpuTwice, Slots, Distinct, FirstN;
    var slots := Slots(worker, gpus, experiments);
    if NoGpuTwice(before) && NoGpuTwice(slots) { TogetherNew(before, slots); }
  }

  lemma PartsAreNew(before: seq<Slot>, slots: seq<Slot>)
    ensures NoGpuTwice(before + slots) ==> NoGpuTwice(before) && NoGpuTwice(slots)
  {
    var all := before + slots;
    assert forall i :: 0 <= i < |before| ==> all[i] == before[i];
    assert forall i :: 0 <= i < |slots| ==> slots[i] == all[|before| + i];
  }

  lemma TogetherNew(before: seq<Slot>, slots: seq<Slot>)
    requires NoGpuTwice(before) && NoGpuTwice(slots)
    requires forall i, j :: 0 <= i < |before| && 0 <= j < |slots| ==>
               before[i].worker != slots[j].worker || before[i].gpu != slots[j].gpu
    ensures NoGpuTwice(before + slots)
  {}

  lemma TakenAreNew(worker: string, gpus: seq<string>, experiments: seq<nat>)
    ensures NoGpuTwice(Slots(worker, gpus, experiments)) <==> Distinct(FirstN(gpus, |experiments|))
  {
    var slots, taken := Slots(worker, gpus, experiments), FirstN(gpus, |experiments|);
    assert |slots| == |taken| && forall i :: 0 <= i < |taken| ==> slots[i] == Slot(worker, taken[i], experiments[i]);
    hide Slots, FirstN;
  }

  lemma CountOne(slots: seq<Slot>, slot: Slot, id: string)
    ensures CountOf(slots + [slot], id) == CountOf(slots, id) + (if slot.worker == id then 1 else 0)
  {
    assert (slots + [slot])[..|slots|] == slots;
  }

  lemma {:induction false} CountMore(slots: seq<Slot>, more: seq<Slot>, worker: string, id: string)
    requires forall i :: 0 <= i < |more| ==> more[i].worker == worker
    ensures CountOf(slots + more, id) == CountOf(slots, id) + (if worker == id then |more| else 0)
  {
    if more == [] {
      assert slots + more == slots;
    } else {
      var last := |more| - 1;
      CountMore(slots, more[..last], worker, id);
      CountOne(slots + more[..last], more[last], id);
      assert slots + more == (slots + more[..last]) + [more[last]];
    }
  }

  lemma CapacityBound(cap: Cap, total: nat, n: int)
    requires n >= 1 && cap.Limit? && cap.value != 0.0 && Truncated(cap.value) <= n
    ensures Capacity(cap, total) <= n
  {
  }

  lemma IdleWithinCapacity(worker: Worker, active: Active, n: int)
    requires n >= 1 && worker.cap.Limit? && worker.cap.value != 0.0 && Truncated(worker.cap.value) <= n
    ensures IdleGpus(worker, active) == [] || |ActiveSlots(worker, active)| + |IdleGpus(worker, active)| <= n
  {
    hide Offered, ActiveGpus, ActiveSlots, FreeOf, Capacity;
    var offer := Offered(worker);
    if offer.Offer? { CapacityBound(worker.cap, |offer.available| + |offer.busy + ActiveGpus(worker, active)|, n); }
  }

  /** A limit that every listing of a worker is under is never exceeded, negative and fractional ones counting as 1. */
  lemma {:induction false} LimitKept(workers: seq<Worker>, experiments: seq<nat>, id: string, n: int)
    requires Distinct(experiments) && n >= 1
    requires forall k :: 0 <= k < |workers| && workers[k].id == id ==>
      workers[k].cap.Limit? && workers[k].cap.value != 0.0 && Truncated(workers[k].cap.value) <= n
    ensures CountOf(Assigned(workers, experiments), id) <= n
  {
    if workers != [] {
      var worker := workers[|workers| - 1];
      var before := Assigned(workers[..|workers| - 1], experiments);
      LimitKept(workers[..|workers| - 1], experiments, id, n);
      AssignedDistinct(workers[..|workers| - 1], experiments);
      ActiveCounts(before, worker);
      CountMore(before, Slots(worker.id, IdleGpus(worker, ActiveOf(before)), experiments[|before|..]), worker.id, id);
      if worker.id == id { IdleWithinCapacity(worker, ActiveOf(before), n); }
      hide ActiveSlots, IdleGpus, ActiveOf, CountOf, Truncated;
    }
  }

  lemma {:induction false} AssignedGrows(workers: seq<Worker>, experiments: seq<nat>, k: nat)
    requires k <= |workers|
    ensures Assigned(workers[..k], experiments) <= Assigned(workers, experiments)
    decreases |workers| - k
  {
    hide *;
    if k < |workers| {
      AssignedStep(workers, experiments, k);
      AssignedGrows(workers, experiments, k + 1);
    } else {
      assert workers[..k] == workers;
    }
  }

  /** While experiments are left over, every GPU offered in its turn has been given out. */
  lemma LeftOversMeanAllGiven(workers: seq<Worker>, experiments: seq<nat>, k: nat, g: nat)
    requires k < |workers|
    ensures var before, all := Assigned(workers[..k], experiments), Assigned(workers, experiments);
            var idle := IdleGpus(workers[k], ActiveOf(before));
            |all| < |experiments| && g < |idle| ==>
              |before| + g < |all| && all[|before| + g] == Slot(workers[k].id, idle[g], experiments[|before| + g])
  {
    hide *;
    AssignedGrows(workers, experiments, k + 1);
    AssignedStep(workers, experiments, k);
    var before, all := Assigned(workers[..k], experiments), Assigned(workers, experiments);
    var idle := IdleGpus(workers[k], ActiveOf(before));
    var slots := Slots(workers[k].id, idle, experiments[|before|..]);
    if |all| < |experiments| && g < |idle| {
      assert |slots| == |idle|;
      assert all[|before| + g] == (before + slots)[|before| + g] == slots[g];
    }
  }

  /** A probe offers as many GPUs as there is room for, or every one that is free. */
  lemma IdleFillsRoom(worker: Worker, active: Active)
    requires Offered(worker).Offer?
    ensures var idle := IdleGpus(worker, active);
            || |idle| == Room(worker, active)
            || forall gpu :: gpu in Offered(worker).available && gpu !in Offered(worker).busy ==>
                 gpu in idle || gpu in ActiveGpus(worker, active) || ShortKey(worker.id, gpu) in active
  {
    var offer := Offered(worker);
    FreeOfIs(worker, active, offer.busy, offer.available);
    hide Offered, Room, ActiveGpus, ShortKey, FreeOf;
  }

  /** The GPU of the worker is given out. */
  ghost predicate IsGiven(slots: seq<Slot>, worker: string, gpu: string) {
    exists i :: 0 <= i < |slots| && slots[i].worker == worker && slots[i].gpu == gpu
  }

  /** The name of a slot is the key of one given out. */
  ghost predicate Clashes(slots: seq<Slot>, worker: string, gpu: string) {
    exists i :: 0 <= i < |slots| && Key(slots[i]) == ShortKey(worker, gpu)
  }

  lemma ActiveIsGiven(worker: Worker, slots: seq<Slot>, gpu: string)
    requires DistinctExperiments(slots)
    ensures gpu in ActiveGpus(worker, ActiveOf(slots)) ==> IsGiven(slots, worker.id, gpu)
    ensures ShortKey(worker.id, gpu) in ActiveOf(slots) ==> Clashes(slots, worker.id, gpu)
  {
    ActiveHolds(slots);
    hide ActiveOf, Key, ShortKey;
    var active := ActiveOf(slots);
    if gpu in ActiveGpus(worker, active) {
      var key :| key in active && active[key].worker == worker.id && active[key].gpu == gpu;
      assert active[key] in slots;
    }
    if ShortKey(worker.id, gpu) in active {
      var slot := active[ShortKey(worker.id, gpu)];
      assert slot in slots && Key(slot) == ShortKey(worker.id, gpu);
    }
  }

  lemma GivenStaysGiven(slots: seq<Slot>, more: seq<Slot>, worker: string, gpu: string)
    requires slots <= more
    ensures IsGiven(slots, worker, gpu) ==> IsGiven(more, worker, gpu)
    ensures Clashes(slots, worker, gpu) ==> Clashes(more, worker, gpu)
  {
    hide Key, ShortKey;
  }

  /**
   With experiments left over, every worker that has anything to offer was given as many as it had room
   for, or every GPU its snapshot calls idle is given out, or has a name that clashes with a slot given out.
   */
  lemma LeftOversMeanFull(workers: seq<Worker>, experiments: seq<nat>, k: nat)
    requires k < |workers| && Distinct(experiments) && Offered(workers[k]).Offer?
    ensures var before, after, all :=
        Assigned(workers[..k], experiments), Assigned(workers[..k + 1], experiments), Assigned(workers, experiments);
            |all| < |experiments| ==>
              || |after| - |before| == Room(workers[k], ActiveOf(before))
              || forall gpu :: gpu in Offered(workers[k]).available && gpu !in Offered(workers[k]).busy ==>
                   IsGiven(all, workers[k].id, gpu) || Clashes(all, workers[k].id, gpu)
  {
    hide *;
    var worker := workers[k];
    var before, all := Assigned(workers[..k], experiments), Assigned(workers, experiments);
    var idle := IdleGpus(worker, ActiveOf(before));
    if |all| < |experiments| {
      IdleFillsRoom(worker, ActiveOf(before));
      AssignedStep(workers, experiments, k);
      AssignedGrows(workers, experiments, k);
      AssignedGrows(workers, experiments, k + 1);
      assert |Slots(worker.id, idle, experiments[|before|..])| == |idle|;
      if |idle| != Room(worker, ActiveOf(before)) {
        forall gpu | gpu in Offered(worker).available && gpu !in Offered(worker).busy
          ensures IsGiven(all, worker.id, gpu) || Clashes(all, worker.id, gpu)
        {
          AssignedDistinct(workers[..k], experiments);
          ActiveIsGiven(worker, before, gpu);
          GivenStaysGiven(before, all, worker.id, gpu);
          if gpu in idle { OfferedIsGiven(workers, experiments, k, gpu); }
        }
      }
    }
  }

  lemma OfferedIsGiven(workers: seq<Worker>, experiments: seq<nat>, k: nat, gpu: string)
    requires k < |workers| && |Assigned(workers, experiments)| < |experiments|
    requires gpu in IdleGpus(workers[k], ActiveOf(Assigned(workers[..k], experiments)))
    ensures IsGiven(Assigned(workers, experiments), workers[k].id, gpu)
  {
    hide Assigned, ActiveOf, IdleGpus;
    var idle := IdleGpus(workers[k], ActiveOf(Assigned(workers[..k], experiments)));
    var g :| 0 <= g < |idle| && idle[g] == gpu;
    LeftOversMeanAllGiven(workers, experiments, k, g);
  }
}
