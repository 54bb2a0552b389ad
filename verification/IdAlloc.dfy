/**
  Allocation of numeric ids: the shared counter file that uids and gids come from,
  the maps they are recorded in, and any interleaving of allocations, removals,
  adoptions and crashes.
 */
module IdAlloc {
  import opened Text

  const ALLOCATOR_FLOOR: nat := 10000
  const EXCLUDED_LOW: nat := 65532
  const EXCLUDED_HIGH: nat := 65535
  const UINT32: nat := 0x1_0000_0000
  const READ_SIZE: nat := 32

  predicate Allocatable(id: nat) {
    ALLOCATOR_FLOOR <= id < UINT32 && (id < EXCLUDED_LOW || id > EXCLUDED_HIGH)
  }

  predicate Reserved(id: nat) {
    id != 0 && !Allocatable(id)
  }

  // -------------------------------------------------------------- the counter

  datatype Allocation = Allocated(id: nat, file: string) | Unreadable

  /** What the counter file says is next: the floor when it is empty. */
  function Next(file: string): Option<nat> {
    var raw := TrimSpace(if |file| > READ_SIZE then file[..READ_SIZE] else file);
    if raw == "" then Some(ALLOCATOR_FLOOR) else ParseUint(raw, UINT32)
  }

  function SkipBand(n: nat): nat {
    if EXCLUDED_LOW <= n <= EXCLUDED_HIGH then EXCLUDED_HIGH + 1 else n
  }

  /** The 32-bit successor, written with a newline. */
  function Written(id: nat): string {
    Digits((id + 1) % UINT32) + "\n"
  }

  function Allocate(file: string): Allocation {
    match Next(file)
    case None => Unreadable
    case Some(n) => Allocated(SkipBand(n), Written(SkipBand(n)))
  }

  lemma TrimDigits(s: string)
    requires s != "" && AllDigits(s)
    ensures TrimSpace(s + "\n") == s
  {
    var t := s + "\n";
    assert t[0] == s[0] && IsDigit(s[0]);
    assert TrimLeftSpace(t) == t;
    assert t[..|t| - 1] == s && IsDigit(s[|s| - 1]);
    assert TrimRightSpace(t) == TrimRightSpace(s);
  }

  /** The counter reads back what was written to it. */
  lemma CounterRoundTrip(id: nat)
    ensures Next(Written(id)) == Some((id + 1) % UINT32)
  {
    var n := (id + 1) % UINT32;
    PowersOfTen();
    DigitsShort(n, 10);
    TrimDigits(Digits(n));
    DigitsRoundTrip(n);
  }

  class Counter {
    var file: string

    constructor (file: string)
      ensures this.file == file
    {
      this.file := file;
    }

    /** Hands out the next id and moves the counter past it, or reports that the file makes no sense. */
    method AllocateId() returns (id: Option<nat>)
      modifies this
      ensures match Allocate(old(file))
              case Unreadable => id == None && file == old(file)
              case Allocated(n, text) => id == Some(n) && file == text
    {
      var raw := TrimSpace(if |file| > READ_SIZE then file[..READ_SIZE] else file);
      var next := ALLOCATOR_FLOOR;
      if raw != "" {
        var parsed := ParseUint(raw, UINT32);
        if parsed.None? {
          return None;
        }
        next := parsed.value;
      }
      if next >= EXCLUDED_LOW && next <= EXCLUDED_HIGH {
        next := EXCLUDED_HIGH + 1;
      }
      file := Digits((next + 1) % UINT32) + "\n";
      return Some(next);
    }
  }

  // ------------------------------------------------- what the counter hands out

  /** How many ids there are to hand out. */
  const CAPACITY: nat := UINT32 - ALLOCATOR_FLOOR - 4

  /** The k-th id handed out, counting from an empty counter. */
  function Nth(k: nat): nat {
    if k < EXCLUDED_LOW - ALLOCATOR_FLOOR then ALLOCATOR_FLOOR + k else ALLOCATOR_FLOOR + 4 + k
  }

  /** As long as there are any, the ids handed out are allocatable and strictly increase. */
  lemma NthIncreases(j: nat, k: nat)
    requires j < k < CAPACITY
    ensures Nth(j) < Nth(k) && Allocatable(Nth(j)) && Allocatable(Nth(k))
  {
  }

  /** Every allocatable id is handed out, in its turn. */
  lemma NthCovers(id: nat)
    requires Allocatable(id)
    ensures exists k: nat :: k < CAPACITY && Nth(k) == id
  {
    var k := if id < EXCLUDED_LOW then id - ALLOCATOR_FLOOR else id - ALLOCATOR_FLOOR - 4;
    assert Nth(k) == id;
  }

  lemma NthSucceeds(k: nat)
    requires 0 < k <= CAPACITY
    ensures SkipBand((Nth(k - 1) + 1) % UINT32) == Handed(k)
  {
    assert k < CAPACITY ==> Nth(k - 1) + 1 < UINT32;
    assert k == CAPACITY ==> Nth(k - 1) + 1 == UINT32;
  }

  /** What the counter hands out in its k-th turn: zero when the ids have run out. */
  function Handed(k: nat): nat {
    if k < CAPACITY then Nth(k) else 0
  }

  /** After each id the counter stands for the next one, and for zero after the last. */
  lemma AllocateNth(k: nat)
    requires 0 < k <= CAPACITY
    ensures Allocate(Written(Nth(k - 1))) == Allocated(Handed(k), Written(Handed(k)))
  {
    CounterRoundTrip(Nth(k - 1));
    NthSucceeds(k);
  }

  lemma AllocateFirst()
    ensures Allocate("") == Allocated(Nth(0), Written(Nth(0)))
  {
    assert TrimSpace("") == "";
  }

  // ------------------------------------------------------------- interleavings

  /** One map for the domains' gids, and one for each domain's uids. */
  datatype Slot = Gids | Uids(domain: string)

  datatype Place = Place(slot: Slot, name: string)

  datatype Entry = Entry(id: nat, adopted: bool)

  /** Where an allocation is, once it holds the lock of its map and has seen no entry there. */
  datatype Pc = Holding(place: Place) | Minted(place: Place, id: nat)

  /** The files, the locks, the allocations under way, and every id ever handed out or let go. */
  datatype State = State(
    counter: string,
    entries: map<Place, Entry>,
    locks: map<Slot, nat>,
    procs: map<nat, Pc>,
    handed: seq<nat>,
    lost: set<nat>)

  datatype Step =
    | Begin(pid: nat, place: Place)     // lock the map; nothing to do when the entry is there
    | Mint(pid: nat)                    // take an id from the counter
    | Record(pid: nat)                  // write the map and unlock
    | Crash(pid: nat)                   // the process ends; the lock goes with it
    | Remove(place: Place)
    | Adopt(place: Place, id: nat)      // record an id of an older layout

  predicate Enabled(s: State, e: Step) {
    match e
    case Begin(p, place) => p !in s.procs && place.slot !in s.locks
    case Mint(p) => p in s.procs && s.procs[p].Holding?
    case Record(p) => p in s.procs && s.procs[p].Minted?
    case Crash(p) => p in s.procs
    case Remove(place) => place.slot !in s.locks
    case Adopt(place, id) => place.slot !in s.locks
  }

  function Released(s: State, pid: nat): State
    requires pid in s.procs
  {
    s.(procs := s.procs - {pid}, locks := s.locks - {s.procs[pid].place.slot})
  }

  function After(s: State, e: Step): State
    requires Enabled(s, e)
  {
    match e
    case Begin(p, place) =>
      if place in s.entries then s
      else s.(procs := s.procs[p := Holding(place)], locks := s.locks[place.slot := p])
    case Mint(p) => AfterMint(s, p)
    case Record(p) => Released(s, p).(entries := s.entries[s.procs[p].place := Entry(s.procs[p].id, false)])
    case Crash(p) => Released(s, p).(lost := if s.procs[p].Minted? then s.lost + {s.procs[p].id} else s.lost)
    case Remove(place) =>
      if place !in s.entries then s
      else s.(entries := s.entries - {place},
              lost := if s.entries[place].adopted then s.lost else s.lost + {s.entries[place].id})
    case Adopt(place, id) =>
      if Allocatable(id) && place !in s.entries then s.(entries := s.entries[place := Entry(id, true)]) else s
  }

  function AfterMint(s: State, p: nat): State
    requires p in s.procs && s.procs[p].Holding?
  {
    match Allocate(s.counter)
    case Unreadable => Released(s, p)
    case Allocated(id, file) =>
      s.(counter := file, procs := s.procs[p := Minted(s.procs[p].place, id)], handed := s.handed + [id])
  }

  // -------------------------------------------------------------- invariants

  /** The counter stands right after the last id handed out. */
  predicate CounterOk(s: State) {
    && |s.handed| <= CAPACITY
    && (forall k | 0 <= k < |s.handed| :: s.handed[k] == Nth(k))
    && s.counter == if s.handed == [] then "" else Written(Nth(|s.handed| - 1))
  }

  /** Each allocation under way holds the lock of its map, and its place is still empty. */
  predicate LocksOk(s: State) {
    && (forall p | p in s.procs :: s.procs[p].place.slot in s.locks && s.locks[s.procs[p].place.slot] == p)
    && (forall p | p in s.procs :: s.procs[p].place !in s.entries)
  }

  /** What an id handed out may belong to. */
  datatype Owner = InMap(place: Place) | UnderWay(pid: nat)

  predicate Owns(s: State, o: Owner, id: nat) {
    match o
    case InMap(place) => place in s.entries && s.entries[place] == Entry(id, false)
    case UnderWay(p) => p in s.procs && s.procs[p] == Minted(s.procs[p].place, id)
  }

  /** No id handed out has two owners, and none that was let go has one. */
  ghost predicate OwnersOk(s: State) {
    && (forall o, id | Owns(s, o, id) :: id in s.handed && id !in s.lost)
    && (forall o, o', id | Owns(s, o, id) && Owns(s, o', id) :: o == o')
    && (forall id | id in s.lost :: id in s.handed)
  }

  /** Everything recorded, adopted or not, may be. */
  predicate RecordedOk(s: State) {
    && (forall place | place in s.entries :: Allocatable(s.entries[place].id))
    && (forall p | p in s.procs && s.procs[p].Minted? :: Allocatable(s.procs[p].id))
  }

  ghost predicate Inv(s: State) {
    CounterOk(s) && LocksOk(s) && OwnersOk(s) && RecordedOk(s)
  }

  /** While ids are left, the next one is allocatable and was never handed out before. */
  lemma NextIsNew(s: State)
    requires CounterOk(s) && |s.handed| < CAPACITY
    ensures Allocate(s.counter) == Allocated(Nth(|s.handed|), Written(Nth(|s.handed|)))
    ensures Nth(|s.handed|) !in s.handed && Allocatable(Nth(|s.handed|))
  {
    var n := |s.handed|;
    if n == 0 {
      AllocateFirst();
    } else {
      AllocateNth(n);
    }
    forall k | 0 <= k < n ensures s.handed[k] != Nth(n) {
      NthIncreases(k, n);
    }
  }

  /** The next id is one that may be allocated exactly when the counter does not stand at zero. */
  lemma NextIsAllocatableIff(s: State)
    requires CounterOk(s)
    ensures Allocate(s.counter).Allocated? && Next(s.counter).Some?
    ensures Allocatable(Allocate(s.counter).id) <==> |s.handed| < CAPACITY
    ensures Allocatable(Allocate(s.counter).id) <==> Next(s.counter).value != 0
  {
    if |s.handed| < CAPACITY {
      NextIsNew(s);
    } else {
      AllocateNth(CAPACITY);
    }
  }

  lemma MintKeepsOwners(s: State, p: nat)
    requires Inv(s) && p in s.procs && s.procs[p].Holding? && |s.handed| < CAPACITY
    ensures Inv(AfterMint(s, p))
  {
    NextIsNew(s);
    var t := AfterMint(s, p);
    var n := |s.handed|;
    forall o, id | Owns(t, o, id) ensures Owns(s, o, id) || (o == UnderWay(p) && id == Nth(n)) {
    }
    forall id | id in s.handed ensures id in t.handed && id != Nth(n) {
    }
    assert t.handed[n] == Nth(n);
  }

  lemma RecordKeepsInv(s: State, p: nat)
    requires Inv(s) && p in s.procs && s.procs[p].Minted?
    ensures Inv(After(s, Record(p)))
  {
    var t := After(s, Record(p));
    var place, id := s.procs[p].place, s.procs[p].id;
    assert Owns(s, UnderWay(p), id);
    forall o, i | Owns(t, o, i) ensures (Owns(s, o, i) && o != UnderWay(p)) || (o == InMap(place) && i == id) {
    }
  }

  lemma CrashKeepsInv(s: State, p: nat)
    requires Inv(s) && p in s.procs
    ensures Inv(After(s, Crash(p)))
  {
    var t := After(s, Crash(p));
    assert s.procs[p].Minted? ==> Owns(s, UnderWay(p), s.procs[p].id);
    forall o, i | Owns(t, o, i) ensures Owns(s, o, i) && o != UnderWay(p) {
    }
  }

  lemma RemoveKeepsInv(s: State, place: Place)
    requires Inv(s) && place.slot !in s.locks
    ensures Inv(After(s, Remove(place)))
  {
    var t := After(s, Remove(place));
    if place in s.entries {
      assert !s.entries[place].adopted ==> Owns(s, InMap(place), s.entries[place].id);
      forall o, i | Owns(t, o, i) ensures Owns(s, o, i) && o != InMap(place) {
      }
    }
  }

  lemma BeginKeepsInv(s: State, p: nat, place: Place)
    requires Inv(s) && Enabled(s, Begin(p, place))
    ensures Inv(After(s, Begin(p, place)))
  {
    var t := After(s, Begin(p, place));
    forall o, i | Owns(t, o, i) ensures Owns(s, o, i) {
    }
  }

  lemma AdoptKeepsInv(s: State, place: Place, id: nat)
    requires Inv(s) && Enabled(s, Adopt(place, id))
    ensures Inv(After(s, Adopt(place, id)))
  {
    var t := After(s, Adopt(place, id));
    forall o, i | Owns(t, o, i) ensures Owns(s, o, i) {
    }
  }

  lemma StepKeepsInv(s: State, e: Step)
    requires Inv(s) && Enabled(s, e) && |After(s, e).handed| <= CAPACITY
    ensures Inv(After(s, e))
  {
    match e {
      case Begin(p, place) => BeginKeepsInv(s, p, place);
      case Mint(p) =>
        NextIsAllocatableIff(s);
        MintKeepsOwners(s, p);
      case Record(p) => RecordKeepsInv(s, p);
      case Crash(p) => CrashKeepsInv(s, p);
      case Remove(place) => RemoveKeepsInv(s, place);
      case Adopt(place, id) => AdoptKeepsInv(s, place, id);
    }
  }

  // -------------------------------------------------------------------- runs

  predicate IsRun(s: State, steps: seq<Step>)
    decreases |steps|
  {
    steps != [] ==> Enabled(s, steps[0]) && IsRun(After(s, steps[0]), steps[1..])
  }

  function Final(s: State, steps: seq<Step>): State
    requires IsRun(s, steps)
    decreases |steps|
  {
    if steps == [] then s else Final(After(s, steps[0]), steps[1..])
  }

  lemma {:induction false} HandedGrows(s: State, steps: seq<Step>)
    requires IsRun(s, steps)
    ensures |s.handed| <= |Final(s, steps).handed| && s.lost <= Final(s, steps).lost
    decreases |steps|
  {
    if steps != [] {
      HandedGrows(After(s, steps[0]), steps[1..]);
    }
  }

  lemma {:induction false} RunKeepsInv(s: State, steps: seq<Step>)
    requires Inv(s) && IsRun(s, steps) && |Final(s, steps).handed| <= CAPACITY
    ensures Inv(Final(s, steps))
    decreases |steps|
  {
    if steps != [] {
      HandedGrows(After(s, steps[0]), steps[1..]);
      StepKeepsInv(s, steps[0]);
      RunKeepsInv(After(s, steps[0]), steps[1..]);
    }
  }

  predicate Init(s: State) {
    s == State("", map[], map[], map[], [], {})
  }

  /**
    From an empty counter, in every interleaving that has not used up the ids: what
    is handed out is allocatable and strictly increases; no two entries that were
    allocated, uid or gid, share an id; and one that was removed, or lost in a crash,
    belongs to nobody.
   */
  lemma AllocationIsSafe(s: State, steps: seq<Step>)
    requires Init(s) && IsRun(s, steps) && |Final(s, steps).handed| <= CAPACITY
    ensures var t := Final(s, steps);
      && (forall j, k | 0 <= j < k < |t.handed| :: t.handed[j] < t.handed[k])
      && (forall k | 0 <= k < |t.handed| :: Allocatable(t.handed[k]))
      && (forall a, b, id | Owns(t, InMap(a), id) && Owns(t, InMap(b), id) :: a == b)
      && (forall a, id | Owns(t, InMap(a), id) :: id in t.handed && id !in t.lost)
      && (forall a | a in t.entries :: Allocatable(t.entries[a].id))
  {
    RunKeepsInv(s, steps);
    var t := Final(s, steps);
    forall j, k | 0 <= j < k < |t.handed| ensures t.handed[j] < t.handed[k] {
      NthIncreases(j, k);
    }
    forall k | 0 <= k < |t.handed| ensures Allocatable(t.handed[k]) {
      assert t.handed[k] == Nth(k);
    }
    forall a, b, id | Owns(t, InMap(a), id) && Owns(t, InMap(b), id) ensures a == b {
      assert InMap(a) == InMap(b);
    }
  }

  /** Every id handed out is recorded, about to be recorded, or let go. */
  ghost predicate Accounted(s: State) {
    forall id | id in s.handed :: id in s.lost || exists o :: Owns(s, o, id)
  }

  /** An owner that a step leaves alone keeps what it owns. */
  lemma OwnerStays(s: State, e: Step, o: Owner, id: nat)
    requires LocksOk(s) && Enabled(s, e) && Owns(s, o, id)
    requires o.UnderWay? ==> e != Record(o.pid) && e != Crash(o.pid)
    requires o.InMap? ==> e != Remove(o.place)
    ensures Owns(After(s, e), o, id)
  {
  }

  lemma EndsAccounted(s: State, e: Step, o: Owner, id: nat)
    requires LocksOk(s) && Enabled(s, e) && Owns(s, o, id)
    ensures id in After(s, e).lost || exists o' :: Owns(After(s, e), o', id)
  {
    var t := After(s, e);
    if e.Record? && o == UnderWay(e.pid) {
      assert Owns(t, InMap(s.procs[e.pid].place), id);
    } else if (e.Crash? && o == UnderWay(e.pid)) || (e.Remove? && o == InMap(e.place)) {
      assert id in t.lost;
    } else {
      OwnerStays(s, e, o, id);
    }
  }

  lemma StepKeepsAccounts(s: State, e: Step)
    requires LocksOk(s) && Accounted(s) && Enabled(s, e)
    ensures Accounted(After(s, e))
  {
    var t := After(s, e);
    forall id | id in t.handed ensures id in t.lost || exists o :: Owns(t, o, id) {
      if id !in s.handed {
        assert e.Mint? && Owns(t, UnderWay(e.pid), id);
      } else if id in s.lost {
        assert id in t.lost;
      } else {
        var o :| Owns(s, o, id);
        EndsAccounted(s, e, o, id);
      }
    }
  }

  lemma {:induction false} RunKeepsAccounts(s: State, steps: seq<Step>)
    requires Inv(s) && Accounted(s) && IsRun(s, steps) && |Final(s, steps).handed| <= CAPACITY
    ensures Accounted(Final(s, steps))
    decreases |steps|
  {
    if steps != [] {
      HandedGrows(After(s, steps[0]), steps[1..]);
      StepKeepsInv(s, steps[0]);
      StepKeepsAccounts(s, steps[0]);
      RunKeepsAccounts(After(s, steps[0]), steps[1..]);
    }
  }

  /**
    Nothing leaks: an id handed out is recorded, about to be recorded, or was let go by
    a crash or a removal, and it is only one of these.
   */
  lemma IdsAreAccounted(s: State, steps: seq<Step>, id: nat)
    requires Init(s) && IsRun(s, steps) && |Final(s, steps).handed| <= CAPACITY
    ensures var t := Final(s, steps);
      && (id in t.handed <==> id in t.lost || exists o :: Owns(t, o, id))
      && (id in t.lost ==> forall o :: !Owns(t, o, id))
      && (forall o, o' | Owns(t, o, id) && Owns(t, o', id) :: o == o')
  {
    RunKeepsInv(s, steps);
    RunKeepsAccounts(s, steps);
  }

  /** An id that was let go never belongs to an allocated entry again. */
  lemma LostNeverReturns(s: State, steps: seq<Step>, id: nat, place: Place)
    requires Inv(s) && IsRun(s, steps) && |Final(s, steps).handed| <= CAPACITY && id in s.lost
    ensures !Owns(Final(s, steps), InMap(place), id)
  {
    HandedGrows(s, steps);
    RunKeepsInv(s, steps);
  }

  lemma StepKeepsEntry(s: State, e: Step, place: Place)
    requires LocksOk(s) && Enabled(s, e) && e != Remove(place) && place in s.entries
    ensures place in After(s, e).entries && After(s, e).entries[place] == s.entries[place]
  {
  }

  /** Allocation happens once: a recorded id stays what it is until it is removed. */
  lemma {:induction false} EntryIsKept(s: State, steps: seq<Step>, place: Place)
    requires Inv(s) && IsRun(s, steps) && |Final(s, steps).handed| <= CAPACITY
    requires place in s.entries && forall i | 0 <= i < |steps| :: steps[i] != Remove(place)
    ensures place in Final(s, steps).entries && Final(s, steps).entries[place] == s.entries[place]
    decreases |steps|
  {
    if steps != [] {
      var e := steps[0];
      HandedGrows(After(s, e), steps[1..]);
      StepKeepsInv(s, e);
      StepKeepsEntry(s, e, place);
      EntryIsKept(After(s, e), steps[1..], place);
    }
  }

  /** The ids do run out: one allocation too many is given zero, which is the superuser's. */
  lemma OneTooMany(s: State, p: nat)
    requires Inv(s) && |s.handed| == CAPACITY && Enabled(s, Mint(p))
    ensures p in After(s, Mint(p)).procs && After(s, Mint(p)).procs[p] == Minted(s.procs[p].place, 0) && !Allocatable(0) && !Reserved(0)
  {
    AllocateNth(CAPACITY);
  }

  // ---------------------------------------------------------------- the manager

  datatype Reply = New(id: nat) | Exists(id: nat) | CounterError

  /** An allocation that nothing interrupts is three steps of a run. */
  lemma SoloAllocation(s: State, place: Place, id: nat, file: string)
    requires place !in s.entries && s.locks == map[] && s.procs == map[] && Allocate(s.counter) == Allocated(id, file)
    ensures var s2 := After(After(s, Begin(0, place)), Mint(0));
      && s2.procs == map[0 := Minted(place, id)] && s2.handed == s.handed + [id]
      && After(s2, Record(0)) == s.(counter := file, entries := s.entries[place := Entry(id, false)], handed := s.handed + [id])
  {
    assert map[0 := Minted(place, id)] - {0} == map[];
    assert map[place.slot := 0] - {place.slot} == map[];
  }

  lemma SoloKeepsInv(s: State, place: Place)
    requires Inv(s) && |s.handed| < CAPACITY && place !in s.entries && s.locks == map[] && s.procs == map[]
    ensures Allocate(s.counter).Allocated?
    ensures var a := Allocate(s.counter);
      Inv(s.(counter := a.file, entries := s.entries[place := Entry(a.id, false)], handed := s.handed + [a.id]))
  {
    NextIsNew(s);
    var s1 := After(s, Begin(0, place));
    BeginKeepsInv(s, 0, place);
    MintKeepsOwners(s1, 0);
    RecordKeepsInv(After(s1, Mint(0)), 0);
    SoloAllocation(s, place, Allocate(s.counter).id, Allocate(s.counter).file);
  }

  /** One caller at a time: the maps and the counter, and the state they are in as a run. */
  class Manager {
    const counter: Counter
    var entries: map<Place, Entry>
    ghost var state: State

    ghost predicate Valid()
      reads this, counter
    {
      && state.counter == counter.file && state.entries == entries
      && state.locks == map[] && state.procs == map[]
    }

    constructor ()
      ensures Valid() && Inv(state) && fresh(counter) && entries == map[] && state.handed == []
    {
      counter := new Counter("");
      entries := map[];
      state := State("", map[], map[], map[], [], {});
    }

    /** Allocates once: an entry that is there is handed back, and nothing is taken from the counter. */
    method AllocateAt(place: Place) returns (r: Reply)
      requires Valid()
      modifies this, counter
      ensures Valid()
      ensures place in old(entries) ==> r == Exists(old(entries)[place].id) && state == old(state)
      ensures place !in old(entries) && r.New? ==>
        && entries == old(entries)[place := Entry(r.id, false)]
        && state.handed == old(state.handed) + [r.id] && state.lost == old(state.lost)
      ensures place !in old(entries) && !r.New? ==> r == CounterError && state == old(state)
      ensures place !in old(entries) && old(Inv(state) && |state.handed| < CAPACITY) ==> r.New? && Inv(state)
    {
      if place in entries {
        return Exists(entries[place].id);
      }
      if Inv(state) && |state.handed| < CAPACITY {
        SoloKeepsInv(state, place);
      }
      var id := counter.AllocateId();
      if id.None? {
        return CounterError;
      }
      entries := entries[place := Entry(id.value, false)];
      state := state.(counter := counter.file, entries := entries, handed := state.handed + [id.value]);
      return New(id.value);
    }

    /** Records a given id: refused when it may not be allocated or another one is there. */
    method SetAt(place: Place, id: nat) returns (ok: bool)
      requires Valid()
      modifies this
      ensures Valid() && state == After(old(state), Adopt(place, id))
      ensures ok <==> Allocatable(id) && (place in old(entries) ==> old(entries)[place].id == id)
      ensures ok ==> place in entries && entries[place].id == id
      ensures old(Inv(state)) ==> Inv(state)
    {
      if Inv(state) {
        StepKeepsInv(state, Adopt(place, id));
      }
      state := After(state, Adopt(place, id));
      if !Allocatable(id) {
        return false;
      }
      if place in entries {
        return entries[place].id == id;
      }
      entries := entries[place := Entry(id, true)];
      return true;
    }

    method RemoveAt(place: Place)
      requires Valid()
      modifies this
      ensures Valid() && state == After(old(state), Remove(place))
      ensures entries == old(entries) - {place}
      ensures old(Inv(state)) ==> Inv(state)
    {
      if Inv(state) {
        StepKeepsInv(state, Remove(place));
      }
      state := After(state, Remove(place));
      if place in entries {
        entries := entries - {place};
      }
    }
  }
}
