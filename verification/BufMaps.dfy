/** The hash map of bufs/map.go: linear probing over uint64 slots that wrap
    around, for an arbitrary hash function. */
module BufMaps {
  import opened Wrappers

  const SLOTS: nat := 0x1_0000_0000_0000_0000

  type Slot = s: int | 0 <= s < SLOTS

  type Key = seq<bv8>

  datatype Entry = Entry(key: Key, payload: int)

  type Slots = map<Slot, Entry>

  type Hash = Key -> Slot

  /** `atHash++` on a uint64. */
  function After(s: Slot): Slot {
    if s + 1 == SLOTS then 0 else s + 1
  }

  /** The slot `d` steps after `h`. */
  function At(h: Slot, d: nat): Slot
    requires d < SLOTS
  {
    if h + d < SLOTS then h + d else h + d - SLOTS
  }

  /** How many steps lead from `h` to `s`. */
  function Dist(h: Slot, s: Slot): nat {
    if s >= h then s - h else s - h + SLOTS
  }

  datatype Outcome = Hit(at: Slot) | Miss(at: Slot) | Diverges

  /** The probe loop, started at `at`, with `left` slots not visited yet; after
      all of them it is back where it began, and goes round for ever. */
  function Probe(m: Slots, key: Key, at: Slot, left: nat): Outcome
    decreases left
  {
    if left == 0 then Diverges
    else if at !in m then Miss(at)
    else if m[at].key == key then Hit(at)
    else Probe(m, key, After(at), left - 1)
  }

  function Find(m: Slots, hash: Hash, key: Key): Outcome {
    Probe(m, key, hash(key), SLOTS)
  }

  function Lookup(m: Slots, hash: Hash, key: Key): Option<Entry> {
    match Find(m, hash, key)
    case Hit(at) => if at in m then Some(m[at]) else None
    case _ => None
  }

  // ------------------------------------------------------------- the probe loop

  lemma {:induction false} ProbeReaches(m: Slots, key: Key, h: Slot, d: nat, at: nat)
    requires d <= at < SLOTS
    requires forall e :: d <= e < at ==> At(h, e) in m && m[At(h, e)].key != key
    ensures At(h, at) !in m ==> Probe(m, key, At(h, d), SLOTS - d) == Miss(At(h, at))
    ensures At(h, at) in m && m[At(h, at)].key == key ==> Probe(m, key, At(h, d), SLOTS - d) == Hit(At(h, at))
    decreases at - d
  {
    if d < at {
      assert At(h, d) in m && m[At(h, d)].key != key;
      assert After(At(h, d)) == At(h, d + 1);
      ProbeReaches(m, key, h, d + 1, at);
    }
  }

  /** The outcome, and what the loop has passed on the way. */
  lemma {:induction false} ProbeMeaning(m: Slots, key: Key, h: Slot, d: nat)
    requires d <= SLOTS
    ensures var r := Probe(m, key, if d < SLOTS then At(h, d) else h, SLOTS - d);
            && (r.Hit? ==> r.at in m && m[r.at].key == key && d <= Dist(h, r.at))
            && (r.Miss? ==> r.at !in m && d <= Dist(h, r.at))
            && (!r.Diverges? ==> forall e :: d <= e < Dist(h, r.at) ==> At(h, e) in m && m[At(h, e)].key != key)
            && (r.Diverges? ==> forall e :: d <= e < SLOTS ==> At(h, e) in m && m[At(h, e)].key != key)
    decreases SLOTS - d
  {
    if d < SLOTS {
      var at := At(h, d);
      assert Dist(h, at) == d;
      if at in m && m[at].key != key {
        assert After(at) == if d + 1 < SLOTS then At(h, d + 1) else h;
        ProbeMeaning(m, key, h, d + 1);
      }
    }
  }

  /** The loop does not end exactly when every slot is taken and none by the key. */
  lemma DivergesIff(m: Slots, hash: Hash, key: Key)
    ensures Find(m, hash, key).Diverges? <==> forall s: Slot :: s in m && m[s].key != key
  {
    var h := hash(key);
    assert At(h, 0) == h;
    ProbeMeaning(m, key, h, 0);
    if Find(m, hash, key).Diverges? {
      forall s: Slot ensures s in m && m[s].key != key {
        assert s == At(h, Dist(h, s));
      }
    }
  }

  /** Where the loop stops: at the first slot, counting up from the hash modulo 2^64,
      that is free or holds the key. */
  lemma ProbeStopsAtFirst(m: Slots, hash: Hash, key: Key) returns (d: nat)
    requires !Find(m, hash, key).Diverges?
    ensures var r, h, n := Find(m, hash, key), hash(key), 0x1_0000_0000_0000_0000;
            && (r.Hit? <==> r.at in m && m[r.at].key == key)
            && (r.Miss? <==> r.at !in m)
            && d < n && r.at == (h + d) % n
            && forall e :: 0 <= e < d ==> At(h, e) == (h + e) % n && At(h, e) in m && m[At(h, e)].key != key
  {
    var r, h := Find(m, hash, key), hash(key);
    assert At(h, 0) == h;
    ProbeMeaning(m, key, h, 0);
    d := Dist(h, r.at);
    AtIsModulo(h, d);
    assert At(h, d) == r.at;
    forall e | 0 <= e < d ensures At(h, e) == (h + e) % SLOTS {
      AtIsModulo(h, e);
    }
  }

  lemma AtIsModulo(h: Slot, d: nat)
    requires d < SLOTS
    ensures At(h, d) == (h + d) % 0x1_0000_0000_0000_0000
  {
  }

  // ------------------------------------------------------------- the invariant

  ghost predicate DistinctKeys(m: Slots) {
    forall s, t :: s in m && t in m && m[s].key == m[t].key ==> s == t
  }

  /** The probe path of the entry at `t` passes slot `s` before it gets there. */
  predicate Crosses(m: Slots, hash: Hash, t: Slot, s: Slot)
    requires t in m
  {
    Dist(hash(m[t].key), s) < Dist(hash(m[t].key), t)
  }

  ghost predicate PathsOccupied(m: Slots, hash: Hash) {
    forall t, s: Slot :: t in m && Crosses(m, hash, t, s) ==> s in m
  }

  ghost predicate Valid(m: Slots, hash: Hash) {
    DistinctKeys(m) && PathsOccupied(m, hash)
  }

  ghost function KeysOf(m: Slots): set<Key> {
    set s | s in m :: m[s].key
  }

  ghost function EntryOf(m: Slots, key: Key): Entry
    requires key in KeysOf(m)
  {
    var s :| s in m && m[s].key == key;
    m[s]
  }

  /** The plain map that the slots stand for. */
  ghost function Abs(m: Slots): map<Key, Entry> {
    map key | key in KeysOf(m) :: EntryOf(m, key)
  }

  lemma FindEntry(m: Slots, hash: Hash, t: Slot)
    requires Valid(m, hash) && t in m
    ensures Find(m, hash, m[t].key) == Hit(t)
  {
    var key := m[t].key;
    var h := hash(key);
    forall e | 0 <= e < Dist(h, t) ensures At(h, e) in m && m[At(h, e)].key != key {
      assert Dist(h, At(h, e)) == e;
      assert Crosses(m, hash, t, At(h, e));
    }
    assert At(h, Dist(h, t)) == t && At(h, 0) == h;
    ProbeReaches(m, key, h, 0, Dist(h, t));
  }

  /** A probe that ends agrees with the plain map. */
  lemma LookupIsAbs(m: Slots, hash: Hash, key: Key)
    requires Valid(m, hash) && !Find(m, hash, key).Diverges?
    ensures Lookup(m, hash, key) == if key in Abs(m) then Some(Abs(m)[key]) else None
    ensures key in Abs(m) <==> Find(m, hash, key).Hit?
  {
    assert At(hash(key), 0) == hash(key);
    ProbeMeaning(m, key, hash(key), 0);
    if key in Abs(m) {
      var t :| t in m && m[t].key == key;
      FindEntry(m, hash, t);
    }
  }

  lemma PutKeepsDistinct(m: Slots, hash: Hash, entry: Entry, at: Slot)
    requires Valid(m, hash)
    requires Find(m, hash, entry.key) == if at in m then Hit(at) else Miss(at)
    requires at in m ==> m[at].key == entry.key
    ensures DistinctKeys(m[at := entry])
  {
    if at !in m {
      forall t | t in m ensures m[t].key != entry.key {
        FindEntry(m, hash, t);
      }
    }
  }

  lemma PutKeepsPaths(m: Slots, hash: Hash, entry: Entry, at: Slot)
    requires PathsOccupied(m, hash)
    requires forall e :: 0 <= e < Dist(hash(entry.key), at) ==> At(hash(entry.key), e) in m
    requires at in m ==> m[at].key == entry.key
    ensures PathsOccupied(m[at := entry], hash)
  {
    var m', h := m[at := entry], hash(entry.key);
    forall t, s: Slot | t in m' && Crosses(m', hash, t, s) ensures s in m' {
      if t == at {
        assert At(h, Dist(h, s)) == s;
      } else {
        assert Crosses(m, hash, t, s);
      }
    }
  }

  lemma PutKeepsValid(m: Slots, hash: Hash, entry: Entry, at: Slot)
    requires Valid(m, hash)
    requires Find(m, hash, entry.key) == if at in m then Hit(at) else Miss(at)
    ensures at in m ==> m[at].key == entry.key
    ensures Valid(m[at := entry], hash)
  {
    var h := hash(entry.key);
    assert At(h, 0) == h;
    ProbeMeaning(m, entry.key, h, 0);
    PutKeepsDistinct(m, hash, entry, at);
    PutKeepsPaths(m, hash, entry, at);
  }

  /** `a` holds every entry of the slots, and nothing else. */
  ghost predicate Represents(m: Slots, a: map<Key, Entry>) {
    && (forall t :: t in m ==> m[t].key in a && a[m[t].key] == m[t])
    && (forall k :: k in a ==> exists t :: t in m && m[t].key == k)
  }

  lemma AbsRepresents(m: Slots)
    requires DistinctKeys(m)
    ensures Represents(m, Abs(m))
  {
  }

  lemma RepresentedOnce(m: Slots, a: map<Key, Entry>, b: map<Key, Entry>)
    requires Represents(m, a) && Represents(m, b)
    ensures a == b
  {
    forall k | k in a ensures k in b && a[k] == b[k] {
      var t :| t in m && m[t].key == k;
    }
    forall k | k in b ensures k in a {
      var t :| t in m && m[t].key == k;
    }
  }

  lemma PutRepresents(m: Slots, at: Slot, entry: Entry, a: map<Key, Entry>)
    requires Represents(m, a) && DistinctKeys(m[at := entry])
    requires at in m ==> m[at].key == entry.key
    ensures Represents(m[at := entry], a[entry.key := entry])
  {
    var m', a' := m[at := entry], a[entry.key := entry];
    assert at in m' && m'[at].key == entry.key;
    forall t | t in m' ensures m'[t].key in a' && a'[m'[t].key] == m'[t] {
      assert m'[t].key == m'[at].key ==> t == at;
    }
    forall k | k in a' ensures exists t :: t in m' && m'[t].key == k {
      if k != entry.key {
        var t :| t in m && m[t].key == k;
        assert t in m' && m'[t].key == k;
      }
    }
  }

  lemma PutAbs(m: Slots, at: Slot, entry: Entry)
    requires DistinctKeys(m) && DistinctKeys(m[at := entry])
    requires at in m ==> m[at].key == entry.key
    ensures Abs(m[at := entry]) == Abs(m)[entry.key := entry]
  {
    AbsRepresents(m);
    PutRepresents(m, at, entry, Abs(m));
    AbsRepresents(m[at := entry]);
    RepresentedOnce(m[at := entry], Abs(m[at := entry]), Abs(m)[entry.key := entry]);
  }

  lemma PutIsMapUpdate(m: Slots, hash: Hash, entry: Entry)
    requires Valid(m, hash) && !Find(m, hash, entry.key).Diverges?
    ensures var m' := m[Find(m, hash, entry.key).at := entry];
            Valid(m', hash) && Abs(m') == Abs(m)[entry.key := entry]
  {
    var h := hash(entry.key);
    assert At(h, 0) == h;
    ProbeMeaning(m, entry.key, h, 0);
    var at := Find(m, hash, entry.key).at;
    PutKeepsValid(m, hash, entry, at);
    PutAbs(m, at, entry);
  }

  // ----------------------------------------------------------------- removal

  ghost predicate NoneCrosses(m: Slots, hash: Hash, s: Slot) {
    forall t :: t in m ==> !Crosses(m, hash, t, s)
  }

  /** The slots answer every question as the plain map `a` would. */
  ghost predicate Refines(m: Slots, hash: Hash, a: map<Key, Entry>) {
    forall key :: Lookup(m, hash, key) == if key in a then Some(a[key]) else None
  }

  function Without(m: Slots, s: Slot): Slots {
    map t | t in m && t != s :: m[t]
  }

  /** After slot `s` is freed, the entry at `t` is found as before, unless its
      path crosses `s`; then the probe stops at `s` and the key is lost. */
  lemma FindAfterRemove(m: Slots, hash: Hash, s: Slot, t: Slot)
    requires Valid(m, hash) && s in m && t in m && t != s
    ensures Find(Without(m, s), hash, m[t].key) == if Crosses(m, hash, t, s) then Miss(s) else Hit(t)
  {
    var m' := Without(m, s);
    var key := m[t].key;
    var h := hash(key);
    var stop := if Crosses(m, hash, t, s) then s else t;
    forall e | 0 <= e < Dist(h, stop) ensures At(h, e) in m' && m'[At(h, e)].key != key {
      assert Dist(h, At(h, e)) == e;
      assert Crosses(m, hash, t, At(h, e));
    }
    assert At(h, Dist(h, stop)) == stop && At(h, 0) == h;
    ProbeReaches(m', key, h, 0, Dist(h, stop));
  }

  lemma AbsentAfterRemove(m: Slots, hash: Hash, s: Slot, key: Key)
    requires s in m && forall t :: t in m && t != s ==> m[t].key != key
    ensures Find(Without(m, s), hash, key).Miss?
  {
    var m' := Without(m, s);
    assert At(hash(key), 0) == hash(key);
    ProbeMeaning(m', key, hash(key), 0);
    assert At(hash(key), Dist(hash(key), s)) == s;
  }

  lemma RemoveLookup(m: Slots, hash: Hash, s: Slot, key: Key)
    requires Valid(m, hash) && s in m && NoneCrosses(m, hash, s)
    ensures Lookup(Without(m, s), hash, key) ==
              if key in Abs(m) - {m[s].key} then Some((Abs(m) - {m[s].key})[key]) else None
  {
    if t :| t in m && t != s && m[t].key == key {
      FindAfterRemove(m, hash, s, t);
      assert key in Abs(m);
    } else {
      AbsentAfterRemove(m, hash, s, key);
    }
  }

  /** Freeing a slot is map deletion exactly when no other entry's probe path
      crosses it; that is also exactly when the invariant survives. */
  lemma RemoveIsMapDeletionIff(m: Slots, hash: Hash, s: Slot)
    requires Valid(m, hash) && s in m
    ensures Refines(Without(m, s), hash, Abs(m) - {m[s].key}) <==> NoneCrosses(m, hash, s)
    ensures Valid(Without(m, s), hash) <==> NoneCrosses(m, hash, s)
  {
    var m' := Without(m, s);
    var a := Abs(m) - {m[s].key};
    if NoneCrosses(m, hash, s) {
      forall key ensures Lookup(m', hash, key) == if key in a then Some(a[key]) else None {
        RemoveLookup(m, hash, s, key);
      }
      forall t, u: Slot | t in m' && Crosses(m', hash, t, u) ensures u in m' {
        assert Crosses(m, hash, t, u);
        assert !Crosses(m, hash, t, s);
      }
    } else {
      var t :| t in m && Crosses(m, hash, t, s);
      assert t != s;
      FindAfterRemove(m, hash, s, t);
      assert m[t].key in a && Lookup(m', hash, m[t].key) == None;
      assert Crosses(m', hash, t, s);
    }
  }

  /** Two keys that collide: once the first is removed the second, still in its
      slot, is not found any more. */
  lemma RemoveCanLoseAnotherEntry()
    ensures var hash: Hash := _ => 0;
            var m: Slots := map[0 := Entry([], 1), 1 := Entry([7], 2)];
            && Valid(m, hash)
            && Lookup(m, hash, [7]) == Some(Entry([7], 2))
            && Find(m, hash, []) == Hit(0)
            && Without(m, 0)[1] == Entry([7], 2)
            && Lookup(Without(m, 0), hash, [7]) == None
  {
    var hash: Hash := _ => 0;
    var m: Slots := map[0 := Entry([], 1), 1 := Entry([7], 2)];
    FindEntry(m, hash, 0);
    FindEntry(m, hash, 1);
    assert Crosses(m, hash, 1, 0);
    FindAfterRemove(m, hash, 0, 1);
  }

  /** A caller who sees the next slot empty knows that removal is safe. */
  lemma EmptyNextSlotSuffices(m: Slots, hash: Hash, s: Slot)
    requires Valid(m, hash) && s in m && After(s) !in m
    ensures NoneCrosses(m, hash, s)
  {
    forall t | t in m ensures !Crosses(m, hash, t, s) {
      var h := hash(m[t].key);
      assert !Crosses(m, hash, t, After(s));
      assert Dist(h, s) + 1 < SLOTS ==> Dist(h, After(s)) == Dist(h, s) + 1;
      assert Dist(h, After(s)) == Dist(h, t) ==> After(s) == t;
    }
  }

  lemma WithoutRepresents(m: Slots, s: Slot, a: map<Key, Entry>)
    requires Represents(m, a) && DistinctKeys(m) && s in m
    ensures Represents(Without(m, s), a - {m[s].key})
  {
    var m', a' := Without(m, s), a - {m[s].key};
    forall k | k in a' ensures exists t :: t in m' && m'[t].key == k {
      var t :| t in m && m[t].key == k;
      assert t in m' && m'[t].key == k;
    }
  }

  lemma AbsWithout(m: Slots, s: Slot)
    requires DistinctKeys(m) && s in m
    ensures DistinctKeys(Without(m, s)) && Abs(Without(m, s)) == Abs(m) - {m[s].key}
  {
    var m', a := Without(m, s), Abs(m) - {m[s].key};
    AbsRepresents(m);
    AbsRepresents(m');
    WithoutRepresents(m, s, Abs(m));
    RepresentedOnce(m', Abs(m'), a);
  }

  // ------------------------------------------------------- runs of operations

  datatype Op = Get(key: Key) | Put(entry: Entry) | Remove(key: Key)

  function OpKey(op: Op): Key {
    if op.Put? then op.entry.key else op.key
  }

  function Apply(m: Slots, hash: Hash, op: Op): Slots {
    var r := Find(m, hash, OpKey(op));
    match op
    case Get(_) => m
    case Put(entry) => if r.Diverges? then m else m[r.at := entry]
    case Remove(_) => if r.Hit? then Without(m, r.at) else m
  }

  function ApplyPlain(a: map<Key, Entry>, op: Op): map<Key, Entry> {
    match op
    case Get(_) => a
    case Put(entry) => a[entry.key := entry]
    case Remove(key) => a - {key}
  }

  function AnswerPlain(a: map<Key, Entry>, op: Op): Option<Entry> {
    if OpKey(op) in a then Some(a[OpKey(op)]) else None
  }

  /** The call returns, and if it is a Remove of a present key no other entry's
      path crosses the slot. */
  ghost predicate Safe(m: Slots, hash: Hash, op: Op) {
    var r := Find(m, hash, OpKey(op));
    !r.Diverges? && (op.Remove? && r.Hit? ==> NoneCrosses(m, hash, r.at))
  }

  ghost predicate SafeRun(m: Slots, hash: Hash, ops: seq<Op>)
    decreases |ops|
  {
    ops == [] || (Safe(m, hash, ops[0]) && SafeRun(Apply(m, hash, ops[0]), hash, ops[1..]))
  }

  function Answers(m: Slots, hash: Hash, ops: seq<Op>): seq<Option<Entry>>
    decreases |ops|
  {
    if ops == [] then []
    else [Lookup(m, hash, OpKey(ops[0]))] + Answers(Apply(m, hash, ops[0]), hash, ops[1..])
  }

  function AnswersPlain(a: map<Key, Entry>, ops: seq<Op>): seq<Option<Entry>>
    decreases |ops|
  {
    if ops == [] then [] else [AnswerPlain(a, ops[0])] + AnswersPlain(ApplyPlain(a, ops[0]), ops[1..])
  }

  lemma RemoveRefines(m: Slots, hash: Hash, key: Key)
    requires Valid(m, hash) && Safe(m, hash, Op.Remove(key))
    ensures var m' := Apply(m, hash, Op.Remove(key));
            Valid(m', hash) && Abs(m') == Abs(m) - {key}
  {
    var r := Find(m, hash, key);
    assert At(hash(key), 0) == hash(key);
    ProbeMeaning(m, key, hash(key), 0);
    LookupIsAbs(m, hash, key);
    if r.Hit? {
      RemoveIsMapDeletionIff(m, hash, r.at);
      AbsWithout(m, r.at);
    }
  }

  lemma ApplyRefines(m: Slots, hash: Hash, op: Op)
    requires Valid(m, hash) && Safe(m, hash, op)
    ensures Valid(Apply(m, hash, op), hash) && Abs(Apply(m, hash, op)) == ApplyPlain(Abs(m), op)
    ensures Lookup(m, hash, OpKey(op)) == AnswerPlain(Abs(m), op)
  {
    LookupIsAbs(m, hash, OpKey(op));
    match op {
      case Get(_) =>
      case Put(entry) => PutIsMapUpdate(m, hash, entry);
      case Remove(key) => RemoveRefines(m, hash, key);
    }
  }

  /** Any sequence of operations answers as a plain map keyed by byte strings
      does, collisions and wrap-around included. */
  lemma {:induction false} RunRefinesMap(m: Slots, hash: Hash, ops: seq<Op>)
    requires Valid(m, hash) && SafeRun(m, hash, ops)
    ensures Answers(m, hash, ops) == AnswersPlain(Abs(m), ops)
    decreases |ops|
  {
    if ops != [] {
      ApplyRefines(m, hash, ops[0]);
      RunRefinesMap(Apply(m, hash, ops[0]), hash, ops[1..]);
    }
  }

  /** How many entries the operations can add. */
  function Puts(ops: seq<Op>): nat {
    if ops == [] then 0 else (if ops[0].Put? then 1 else 0) + Puts(ops[1..])
  }

  /** No Remove frees a slot that another entry's path crosses. */
  ghost predicate RemovesApart(m: Slots, hash: Hash, ops: seq<Op>)
    decreases |ops|
  {
    ops != [] ==>
      && (var r := Find(m, hash, OpKey(ops[0])); ops[0].Remove? && r.Hit? ==> NoneCrosses(m, hash, r.at))
      && RemovesApart(Apply(m, hash, ops[0]), hash, ops[1..])
  }

  lemma {:induction false} FullRange(taken: set<Slot>, n: nat)
    requires n <= SLOTS && forall s: Slot :: s < n ==> s in taken
    ensures n <= |taken|
  {
    if n > 0 {
      FullRange(taken - {n - 1}, n - 1);
    }
  }

  /** With a slot to spare the probe ends. */
  lemma RoomEndsProbe(m: Slots, hash: Hash, key: Key)
    requires |m| < SLOTS
    ensures !Find(m, hash, key).Diverges?
  {
    DivergesIff(m, hash, key);
    assert |m.Keys| == |m|;
    if Find(m, hash, key).Diverges? {
      FullRange(m.Keys, SLOTS);
    }
  }

  lemma ApplyGrows(m: Slots, hash: Hash, op: Op)
    ensures |Apply(m, hash, op)| <= |m| + if op.Put? then 1 else 0
  {
    var m' := Apply(m, hash, op);
    var added: set<Slot> := if op.Put? && !Find(m, hash, OpKey(op)).Diverges? then {Find(m, hash, OpKey(op)).at} else {};
    SubsetSize(m'.Keys, m.Keys + added);
    assert |m'| == |m'.Keys| && |m| == |m.Keys|;
  }

  lemma {:induction false} RoomIsSafe(m: Slots, hash: Hash, ops: seq<Op>)
    requires |m| + Puts(ops) < SLOTS && RemovesApart(m, hash, ops)
    ensures SafeRun(m, hash, ops)
    decreases |ops|
  {
    if ops != [] {
      RoomEndsProbe(m, hash, OpKey(ops[0]));
      ApplyGrows(m, hash, ops[0]);
      RoomIsSafe(Apply(m, hash, ops[0]), hash, ops[1..]);
    }
  }

  /** From a new map, with fewer Puts than there are slots: every call returns, and
      answers as the plain map does. */
  lemma NewMapRefinesMap(hash: Hash, ops: seq<Op>)
    requires Puts(ops) < SLOTS && RemovesApart(map[], hash, ops)
    ensures SafeRun(map[], hash, ops)
    ensures Answers(map[], hash, ops) == AnswersPlain(map[], ops)
  {
    var m: Slots := map[];
    RoomIsSafe(m, hash, ops);
    RunRefinesMap(m, hash, ops);
    assert Abs(m) == map[];
  }

  lemma {:induction false} GetsAndPutsRemoveNothing(m: Slots, hash: Hash, ops: seq<Op>)
    requires forall k :: 0 <= k < |ops| ==> !ops[k].Remove?
    ensures RemovesApart(m, hash, ops)
    decreases |ops|
  {
    if ops != [] {
      GetsAndPutsRemoveNothing(Apply(m, hash, ops[0]), hash, ops[1..]);
    }
  }

  // ------------------------------------------------------------------ BufMap

  class BufMap {
    var hashMap: Slots
    const hash: Hash

    constructor (hash: Hash)
      ensures hashMap == map[] && this.hash == hash
    {
      this.hash := hash;
      hashMap := map[];
    }

    /** `get`: the entry under the key, and the slot where the loop stopped. */
    method FindSlot(key: Key) returns (entry: Option<Entry>, at: Slot)
      requires !Find(hashMap, hash, key).Diverges?
      ensures Find(hashMap, hash, key) == if entry.Some? then Hit(at) else Miss(at)
      ensures entry == Lookup(hashMap, hash, key)
    {
      at := hash(key);
      ghost var left := SLOTS;
      while at in hashMap
        invariant Find(hashMap, hash, key) == Probe(hashMap, key, at, left)
        decreases left
      {
        if hashMap[at].key == key {
          return Some(hashMap[at]), at;
        }
        at := After(at);
        left := left - 1;
      }
      entry := None;
    }

    method Get(key: Key) returns (entry: Option<Entry>)
      requires Valid(hashMap, hash) && !Find(hashMap, hash, key).Diverges?
      ensures entry == if key in Abs(hashMap) then Some(Abs(hashMap)[key]) else None
    {
      var at;
      entry, at := FindSlot(key);
      LookupIsAbs(hashMap, hash, key);
    }

    method Put(entry: Entry) returns (existing: Option<Entry>)
      requires Valid(hashMap, hash) && !Find(hashMap, hash, entry.key).Diverges?
      modifies this
      ensures Valid(hashMap, hash)
      ensures Abs(hashMap) == old(Abs(hashMap))[entry.key := entry]
      ensures existing == AnswerPlain(old(Abs(hashMap)), Op.Put(entry))
    {
      LookupIsAbs(hashMap, hash, entry.key);
      PutIsMapUpdate(hashMap, hash, entry);
      var at;
      existing, at := FindSlot(entry.key);
      hashMap := hashMap[at := entry];
    }

    method Remove(key: Key) returns (existing: Option<Entry>)
      requires Valid(hashMap, hash) && !Find(hashMap, hash, key).Diverges?
      modifies this
      ensures existing == AnswerPlain(old(Abs(hashMap)), Op.Remove(key))
      ensures hashMap == Apply(old(hashMap), hash, Op.Remove(key))
    {
      LookupIsAbs(hashMap, hash, key);
      var at;
      existing, at := FindSlot(key);
      if existing.Some? {
        hashMap := Without(hashMap, at);
      }
    }
  }
}
