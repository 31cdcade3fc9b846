/** The block store and load protocol of csrc/fs_io.cpp, as small steps of any
    number of processes over one file system.

    A store checks for the destination, creates a temp file exclusively, writes,
    closes and renames it; every call may fail, a process may crash between any
    two calls, and calls of different processes interleave freely. A load
    deletes the file it read only after a short read. File names are content
    hashes: `block(k)` is the one content stored under key k. */
module BlockStore {
  import opened Options
  import opened Words

  type Bytes = Word
  type Ino = nat

  datatype Path = Tmp(name: nat) | Dest(key: nat)

  /** Directory entries name inodes, so an open file outlives its name. */
  datatype Fs = Fs(dir: map<Path, Ino>, data: map<Ino, Bytes>)

  const EEXIST := 17
  const EIO := 5

  /** What the environment decides about one call: the errno (0 on success), the
      bytes a write transfers, the inode a creation is given. */
  datatype Outcome = Outcome(err: int, count: nat, ino: Ino)

  datatype StorePc =
    | Check
    | MakeDirs
    | OpenTmp
    | Write(ino: Ino)
    | CloseBad(ino: Ino, err: int)
    | Close(ino: Ino)
    | Rename(ino: Ino)
    | Unlink(ino: Ino, ret: int)
    | Stored(ret: int, made: Option<Ino>)

  datatype LoadPc =
    | OpenSource
    | Read(ino: Ino)
    | UnlinkShort(ino: Ino)
    | Loaded(ret: int, bytes: Bytes)

  datatype Proc =
    | Store(tmp: nat, key: nat, pc: StorePc)
    | Load(key: nat, size: nat, at: LoadPc)
    | Crashed(was: Proc)

  datatype State = State(fs: Fs, procs: map<nat, Proc>)

  // ---------- the calls of one store and one load ----------

  /** One call of _store_block. None means that the file system cannot give this
      outcome here. The owner's unlink is taken to succeed. */
  function StoreCall(src: Bytes, fs: Fs, tmp: nat, key: nat, pc: StorePc, o: Outcome): Option<(Fs, StorePc)> {
    match pc
    case Check =>
      if o.err != 0 then Some((fs, MakeDirs))
      else if Dest(key) in fs.dir then Some((fs, Stored(0, None)))
      else None
    case MakeDirs =>
      Some((fs, if o.err != 0 then Stored(o.err, None) else OpenTmp))
    case OpenTmp =>
      if o.err != 0 then Some((fs, Stored(o.err, None)))
      else if Tmp(tmp) in fs.dir || o.ino in fs.data then None
      else Some((Fs(fs.dir[Tmp(tmp) := o.ino], fs.data[o.ino := []]), Write(o.ino)))
    case Write(ino) =>
      if o.count > |src| || ino !in fs.data then None
      else
        var fs' := fs.(data := fs.data[ino := fs.data[ino] + src[..o.count]]);
        Some((fs', if o.err != 0 then CloseBad(ino, o.err)
                   else if o.count != |src| then CloseBad(ino, EIO)
                   else Close(ino)))
    case CloseBad(ino, err) =>
      Some((fs, Unlink(ino, err)))
    case Close(ino) =>
      Some((fs, if o.err != 0 then Unlink(ino, o.err) else Rename(ino)))
    case Rename(ino) =>
      if o.err == 0 then
        if Tmp(tmp) !in fs.dir then None
        else Some((fs.(dir := (fs.dir - {Tmp(tmp)})[Dest(key) := fs.dir[Tmp(tmp)]]), Stored(0, Some(ino))))
      else if o.err == EEXIST && Dest(key) !in fs.dir then None
      else Some((fs, Unlink(ino, if o.err == EEXIST then 0 else o.err)))
    case Unlink(ino, ret) =>
      Some((fs.(dir := fs.dir - {Tmp(tmp)}), Stored(ret, Some(ino))))
    case Stored(_, _) => None
  }

  /** One call of _load_block. A read that succeeds is short only at the end of
      the file. */
  function LoadCall(fs: Fs, key: nat, size: nat, at: LoadPc, o: Outcome): Option<(Fs, LoadPc)> {
    match at
    case OpenSource =>
      if o.err != 0 then Some((fs, Loaded(o.err, [])))
      else if Dest(key) in fs.dir then Some((fs, Read(fs.dir[Dest(key)])))
      else None
    case Read(ino) =>
      if o.err != 0 then Some((fs, Loaded(o.err, [])))
      else if ino !in fs.data then None
      else if |fs.data[ino]| < size then Some((fs, UnlinkShort(ino)))
      else Some((fs, Loaded(0, fs.data[ino][..size])))
    case UnlinkShort(_) =>
      Some((if o.err != 0 then fs else fs.(dir := fs.dir - {Dest(key)}), Loaded(EIO, [])))
    case Loaded(_, _) => None
  }

  // ---------- any number of processes ----------

  datatype Action = Begin(pid: nat, proc: Proc) | Crash(pid: nat) | Call(pid: nat, o: Outcome)

  ghost predicate Fresh(p: Proc) {
    (p.Store? && p.pc == Check) || (p.Load? && p.at == OpenSource)
  }

  ghost function ProcCall(block: nat -> Bytes, fs: Fs, p: Proc, o: Outcome): Option<(Fs, Proc)> {
    match p
    case Store(tmp, key, pc) =>
      (match StoreCall(block(key), fs, tmp, key, pc, o)
       case None => None
       case Some((fs', pc')) => Some((fs', Store(tmp, key, pc'))))
    case Load(key, size, at) =>
      (match LoadCall(fs, key, size, at, o)
       case None => None
       case Some((fs', at')) => Some((fs', Load(key, size, at'))))
    case Crashed(_) => None
  }

  ghost predicate Step(block: nat -> Bytes, s: State, a: Action, s': State) {
    match a
    case Begin(pid, proc) =>
      pid !in s.procs && Fresh(proc) && s' == s.(procs := s.procs[pid := proc])
    case Crash(pid) =>
      pid in s.procs && !s.procs[pid].Crashed? && s' == s.(procs := s.procs[pid := Crashed(s.procs[pid])])
    case Call(pid, o) =>
      && pid in s.procs
      && var r := ProcCall(block, s.fs, s.procs[pid], o);
      && r.Some?
      && s' == State(r.value.0, s.procs[pid := r.value.1])
  }

  ghost predicate Run(block: nat -> Bytes, states: seq<State>, actions: seq<Action>) {
    && |states| == |actions| + 1
    && forall i :: 0 <= i < |actions| ==> Step(block, states[i], actions[i], states[i + 1])
  }

  // ---------- the invariant ----------

  /** The inode of the temp file a running store has created and not yet
      renamed or removed. */
  ghost function Holds(p: Proc): Option<Ino> {
    if p.Store? && (p.pc.Write? || p.pc.CloseBad? || p.pc.Close? || p.pc.Rename? || p.pc.Unlink?)
    then Some(p.pc.ino) else None
  }

  /** What a file found under key k may be: exactly the block or, in the weaker
      reading, any file no shorter than it. */
  ghost predicate Fits(block: nat -> Bytes, exact: bool, k: nat, bytes: Bytes) {
    if exact then bytes == block(k) else |bytes| >= |block(k)|
  }

  ghost predicate Named(fs: Fs) {
    && (forall p :: p in fs.dir ==> fs.dir[p] in fs.data)
    && (forall p, q :: p in fs.dir && q in fs.dir && p != q ==> fs.dir[p] != fs.dir[q])
  }

  ghost predicate Published(block: nat -> Bytes, exact: bool, fs: Fs) {
    forall k :: Dest(k) in fs.dir ==> fs.dir[Dest(k)] in fs.data && Fits(block, exact, k, fs.data[fs.dir[Dest(k)]])
  }

  ghost predicate NoTmp(fs: Fs, ino: Ino) {
    forall t :: Tmp(t) in fs.dir ==> fs.dir[Tmp(t)] != ino
  }

  ghost predicate Unnamed(fs: Fs, ino: Ino) {
    forall p :: p in fs.dir ==> fs.dir[p] != ino
  }

  /** What holds of each process on its own. */
  ghost predicate ProcOk(block: nat -> Bytes, exact: bool, fs: Fs, p: Proc) {
    match p
    case Store(tmp, key, pc) =>
      && (Holds(p).Some? ==> Tmp(tmp) in fs.dir && fs.dir[Tmp(tmp)] == pc.ino && pc.ino in fs.data)
      && (pc.Write? && pc.ino in fs.data ==> fs.data[pc.ino] == [])
      && ((pc.Close? || pc.Rename?) && pc.ino in fs.data ==> fs.data[pc.ino] == block(key))
      && (pc.Stored? && pc.made.Some? ==> pc.made.value in fs.data && NoTmp(fs, pc.made.value))
      && (pc.Stored? && pc.made.Some? && pc.ret != 0 ==> Unnamed(fs, pc.made.value))
    case Load(key, size, at) =>
      && (at.Read? ==> at.ino in fs.data && Fits(block, exact, key, fs.data[at.ino]) && NoTmp(fs, at.ino))
      && (at.UnlinkShort? ==> size > |block(key)|)
      && (at.Loaded? && at.ret == 0 && exact ==> size <= |block(key)| && at.bytes == block(key)[..size])
    case Crashed(_) => true
  }

  ghost predicate ProcsOk(block: nat -> Bytes, exact: bool, s: State) {
    forall pid :: pid in s.procs ==> ProcOk(block, exact, s.fs, s.procs[pid])
  }

  /** No two running stores hold the same temp file. */
  ghost predicate Exclusive(s: State) {
    forall p, q :: p in s.procs && q in s.procs && p != q && Holds(s.procs[p]).Some? ==>
      Holds(s.procs[p]) != Holds(s.procs[q])
  }

  /** Every temp file is held by a running store or was left by a crashed one. */
  ghost predicate MadeBy(p: Proc, t: nat, ino: Ino) {
    || (p.Store? && p.tmp == t && Holds(p) == Some(ino))
    || (p.Crashed? && p.was.Store? && p.was.tmp == t && Holds(p.was) == Some(ino))
  }

  ghost predicate Accounted(s: State) {
    forall t :: Tmp(t) in s.fs.dir ==> exists pid :: pid in s.procs && MadeBy(s.procs[pid], t, s.fs.dir[Tmp(t)])
  }

  ghost predicate Safe(block: nat -> Bytes, exact: bool, s: State) {
    match s
    case State(fs, procs) =>
      && Named(fs) && Published(block, exact, fs)
      && ProcsOk(block, exact, s) && Exclusive(s) && Accounted(s)
  }

  // ---------- what one call does to the file system ----------

  datatype Effect =
    | Same
    | Make(tmp: nat, ino: Ino)
    | Fill(ino: Ino, bytes: Bytes)
    | Publish(tmp: nat, key: nat)
    | DropTmp(tmp: nat)
    | DropDest(key: nat)

  ghost function Apply(fs: Fs, e: Effect): Fs {
    match e
    case Same => fs
    case Make(t, ino) => Fs(fs.dir[Tmp(t) := ino], fs.data[ino := []])
    case Fill(ino, bytes) => fs.(data := fs.data[ino := bytes])
    case Publish(t, k) =>
      if Tmp(t) in fs.dir then fs.(dir := (fs.dir - {Tmp(t)})[Dest(k) := fs.dir[Tmp(t)]]) else fs
    case DropTmp(t) => fs.(dir := fs.dir - {Tmp(t)})
    case DropDest(k) => fs.(dir := fs.dir - {Dest(k)})
  }

  ghost function EffectOf(block: nat -> Bytes, fs: Fs, p: Proc, o: Outcome): Effect {
    match p
    case Store(tmp, key, pc) =>
      if pc.OpenTmp? && o.err == 0 then Make(tmp, o.ino)
      else if pc.Write? && pc.ino in fs.data && o.count <= |block(key)| then
        Fill(pc.ino, fs.data[pc.ino] + block(key)[..o.count])
      else if pc.Rename? && o.err == 0 then Publish(tmp, key)
      else if pc.Unlink? then DropTmp(tmp)
      else Same
    case Load(key, _, at) =>
      if at.UnlinkShort? && o.err == 0 then DropDest(key) else Same
    case Crashed(_) => Same
  }

  /** Only a creation makes a temp name, only its holder writes, renames or
      removes the file, and only a load after a short read removes a block. */
  ghost predicate Legal(fs: Fs, p: Proc, e: Effect) {
    match e
    case Same => true
    case Make(t, ino) => p.Store? && p.tmp == t && Tmp(t) !in fs.dir && ino !in fs.data
    case Fill(ino, _) => Holds(p) == Some(ino) && p.pc.Write?
    case Publish(t, k) => p.Store? && p.tmp == t && p.key == k && p.pc.Rename? && Tmp(t) in fs.dir
    case DropTmp(t) => p.Store? && p.tmp == t && Holds(p).Some?
    case DropDest(k) => p.Load? && p.key == k && p.at.UnlinkShort?
  }

  lemma CallEffect(block: nat -> Bytes, fs: Fs, p: Proc, o: Outcome)
    requires ProcCall(block, fs, p, o).Some?
    ensures ProcCall(block, fs, p, o).value.0 == Apply(fs, EffectOf(block, fs, p, o))
    ensures Legal(fs, p, EffectOf(block, fs, p, o))
  {
  }

  // ---------- every step keeps the invariant ----------

  lemma NamedKept(block: nat -> Bytes, exact: bool, fs: Fs, p: Proc, e: Effect)
    requires Named(fs) && ProcOk(block, exact, fs, p) && Legal(fs, p, e)
    ensures Named(Apply(fs, e))
  {
  }

  lemma PublishedKept(block: nat -> Bytes, exact: bool, fs: Fs, p: Proc, e: Effect)
    requires Named(fs) && Published(block, exact, fs) && ProcOk(block, exact, fs, p) && Legal(fs, p, e)
    ensures Published(block, exact, Apply(fs, e))
  {
  }

  /** A call of p does not disturb another process q. */
  lemma OtherKept(block: nat -> Bytes, exact: bool, fs: Fs, p: Proc, e: Effect, q: Proc)
    requires Named(fs) && ProcOk(block, exact, fs, p) && Legal(fs, p, e)
    requires ProcOk(block, exact, fs, q) && (Holds(q).Some? ==> Holds(p) != Holds(q))
    ensures ProcOk(block, exact, Apply(fs, e), q)
  {
  }

  /** A call of p leaves p itself in order. */
  lemma SelfKept(block: nat -> Bytes, exact: bool, fs: Fs, p: Proc, o: Outcome)
    requires Named(fs) && Published(block, exact, fs) && ProcOk(block, exact, fs, p)
    requires ProcCall(block, fs, p, o).Some?
    ensures var r := ProcCall(block, fs, p, o).value; ProcOk(block, exact, r.0, r.1)
  {
    if p.Store? {
      StoreKept(block, exact, fs, p, o);
    }
  }

  lemma StoreKept(block: nat -> Bytes, exact: bool, fs: Fs, p: Proc, o: Outcome)
    requires Named(fs) && ProcOk(block, exact, fs, p) && p.Store?
    requires ProcCall(block, fs, p, o).Some?
    ensures var r := ProcCall(block, fs, p, o).value; ProcOk(block, exact, r.0, r.1)
  {
    if p.pc.Write? {
      assert [] + block(p.key)[..|block(p.key)|] == block(p.key);
    }
  }

  /** A call either keeps the temp file its process holds, or creates one, or
      ends the holding together with the name. */
  lemma HoldingAfterCall(block: nat -> Bytes, fs: Fs, p: Proc, o: Outcome)
    requires ProcCall(block, fs, p, o).Some?
    ensures var e := EffectOf(block, fs, p, o);
            var p' := ProcCall(block, fs, p, o).value.1;
            && (p.Store? <==> p'.Store?) && (p.Store? ==> p'.tmp == p.tmp && p'.key == p.key)
            && Holds(p') == (if e.Make? then Some(e.ino) else if e.Publish? || e.DropTmp? then None else Holds(p))
  {
  }

  lemma CallKeepsSafe(block: nat -> Bytes, exact: bool, s: State, pid: nat, o: Outcome, s': State)
    requires Safe(block, exact, s) && Step(block, s, Call(pid, o), s')
    ensures Safe(block, exact, s')
  {
    var p := s.procs[pid];
    var e := EffectOf(block, s.fs, p, o);
    assert ProcOk(block, exact, s.fs, p);
    CallEffect(block, s.fs, p, o);
    NamedKept(block, exact, s.fs, p, e);
    PublishedKept(block, exact, s.fs, p, e);
    HoldingAfterCall(block, s.fs, p, o);
    assert ProcsOk(block, exact, s') by {
      forall q | q in s'.procs ensures ProcOk(block, exact, s'.fs, s'.procs[q]) {
        if q == pid {
          SelfKept(block, exact, s.fs, p, o);
        } else {
          assert ProcOk(block, exact, s.fs, s.procs[q]);
          OtherKept(block, exact, s.fs, p, e, s.procs[q]);
        }
      }
    }
    assert Exclusive(s') by {
      forall q | q in s'.procs && q != pid && Holds(s'.procs[q]).Some?
        ensures Holds(s'.procs[q]) != Holds(s'.procs[pid])
      {
        assert ProcOk(block, exact, s.fs, s.procs[q]);
      }
    }
    CallKeepsAccounted(block, exact, s, pid, o, s');
  }

  lemma CallKeepsAccounted(block: nat -> Bytes, exact: bool, s: State, pid: nat, o: Outcome, s': State)
    requires Safe(block, exact, s) && Step(block, s, Call(pid, o), s')
    ensures Accounted(s')
  {
    var p := s.procs[pid];
    var e := EffectOf(block, s.fs, p, o);
    CallEffect(block, s.fs, p, o);
    HoldingAfterCall(block, s.fs, p, o);
    forall t | Tmp(t) in s'.fs.dir
      ensures exists q :: q in s'.procs && MadeBy(s'.procs[q], t, s'.fs.dir[Tmp(t)])
    {
      if e == Make(t, o.ino) {
        assert MadeBy(s'.procs[pid], t, o.ino);
      } else {
        assert Tmp(t) in s.fs.dir && s.fs.dir[Tmp(t)] == s'.fs.dir[Tmp(t)];
        var q :| q in s.procs && MadeBy(s.procs[q], t, s.fs.dir[Tmp(t)]);
        assert MadeBy(s'.procs[q], t, s'.fs.dir[Tmp(t)]);
      }
    }
  }

  lemma BeginKeepsSafe(block: nat -> Bytes, exact: bool, s: State, pid: nat, proc: Proc, s': State)
    requires Safe(block, exact, s) && Step(block, s, Begin(pid, proc), s')
    ensures Safe(block, exact, s')
  {
    forall t | Tmp(t) in s'.fs.dir
      ensures exists q :: q in s'.procs && MadeBy(s'.procs[q], t, s'.fs.dir[Tmp(t)])
    {
      var q :| q in s.procs && MadeBy(s.procs[q], t, s.fs.dir[Tmp(t)]);
      assert MadeBy(s'.procs[q], t, s'.fs.dir[Tmp(t)]);
    }
  }

  lemma CrashKeepsSafe(block: nat -> Bytes, exact: bool, s: State, pid: nat, s': State)
    requires Safe(block, exact, s) && Step(block, s, Crash(pid), s')
    ensures Safe(block, exact, s')
  {
    forall t | Tmp(t) in s'.fs.dir
      ensures exists q :: q in s'.procs && MadeBy(s'.procs[q], t, s'.fs.dir[Tmp(t)])
    {
      var q :| q in s.procs && MadeBy(s.procs[q], t, s.fs.dir[Tmp(t)]);
      assert MadeBy(s'.procs[q], t, s'.fs.dir[Tmp(t)]);
    }
  }

  lemma StepKeepsSafe(block: nat -> Bytes, exact: bool, s: State, a: Action, s': State)
    requires Safe(block, exact, s) && Step(block, s, a, s')
    ensures Safe(block, exact, s')
  {
    match a
    case Begin(pid, proc) => BeginKeepsSafe(block, exact, s, pid, proc, s');
    case Crash(pid) => CrashKeepsSafe(block, exact, s, pid, s');
    case Call(pid, o) => CallKeepsSafe(block, exact, s, pid, o, s');
  }

  // ---------- whole runs ----------

  /** A start: no process yet, no temp file, and every file fits its name. */
  ghost predicate Start(block: nat -> Bytes, exact: bool, s: State) {
    && s.procs == map[] && Named(s.fs) && Published(block, exact, s.fs)
    && forall t :: Tmp(t) !in s.fs.dir
  }

  /** In every reachable state, whatever the interleaving, failures and crashes,
      a file found under a key is that key's block. */
  lemma {:induction false} RunIsSafe(block: nat -> Bytes, exact: bool, states: seq<State>, actions: seq<Action>, n: nat)
    requires Run(block, states, actions) && Start(block, exact, states[0]) && n < |states|
    ensures Safe(block, exact, states[n])
  {
    if n > 0 {
      RunIsSafe(block, exact, states, actions, n - 1);
      StepKeepsSafe(block, exact, states[n - 1], actions[n - 1], states[n]);
    }
  }

  /** Loads ask for no more than the block they name. */
  ghost predicate Sized(block: nat -> Bytes, s: State) {
    forall pid :: pid in s.procs && s.procs[pid].Load? ==> s.procs[pid].size <= |block(s.procs[pid].key)|
  }

  /** A published block disappears only in the unlink of a load that asked for
      more bytes than the block has. */
  lemma OnlyOversizedLoadsRemove(block: nat -> Bytes, exact: bool, s: State, a: Action, s': State, k: nat)
    requires Safe(block, exact, s) && Step(block, s, a, s')
    requires Dest(k) in s.fs.dir && Dest(k) !in s'.fs.dir
    ensures a.Call? && a.pid in s.procs && s.procs[a.pid].Load? && s.procs[a.pid].key == k && s.procs[a.pid].at.UnlinkShort?
    ensures s.procs[a.pid].size > |block(k)|
  {
    if a.Call? {
      assert ProcOk(block, exact, s.fs, s.procs[a.pid]);
      CallEffect(block, s.fs, s.procs[a.pid], a.o);
    }
  }

  /** Only the creator of a temp file ever renames or removes it, even when
      several writers were given the same temp path. */
  lemma OnlyCreatorTouchesTmp(block: nat -> Bytes, exact: bool, s: State, a: Action, s': State, t: nat)
    requires Safe(block, exact, s) && Step(block, s, a, s')
    requires Tmp(t) in s.fs.dir
    requires Tmp(t) !in s'.fs.dir || s'.fs.dir[Tmp(t)] != s.fs.dir[Tmp(t)]
    ensures a.Call? && a.pid in s.procs && s.procs[a.pid].Store? && s.procs[a.pid].tmp == t
    ensures Holds(s.procs[a.pid]) == Some(s.fs.dir[Tmp(t)])
    ensures forall q :: q in s.procs && Holds(s.procs[q]) == Some(s.fs.dir[Tmp(t)]) ==> q == a.pid
  {
    if a.Call? {
      assert ProcOk(block, exact, s.fs, s.procs[a.pid]);
      CallEffect(block, s.fs, s.procs[a.pid], a.o);
    }
  }

  /** A temp file in the directory was made by a store that is still running or
      has crashed: once every store has returned, none is left. */
  lemma TmpHasMaker(block: nat -> Bytes, exact: bool, s: State, t: nat)
    requires Safe(block, exact, s) && Tmp(t) in s.fs.dir
    ensures exists pid :: pid in s.procs && MadeBy(s.procs[pid], t, s.fs.dir[Tmp(t)])
                          && !(s.procs[pid].Store? && s.procs[pid].pc.Stored?)
  {
    var pid :| pid in s.procs && MadeBy(s.procs[pid], t, s.fs.dir[Tmp(t)]);
  }

  /** A load sized to its block never sees a short read, so it never reaches the
      unlink, and when it succeeds it has read the block. */
  lemma SizedLoadNeverDeletes(block: nat -> Bytes, exact: bool, s: State, pid: nat)
    requires Safe(block, exact, s) && pid in s.procs && s.procs[pid].Load?
    requires s.procs[pid].size <= |block(s.procs[pid].key)|
    ensures !s.procs[pid].at.UnlinkShort?
    ensures exact && s.procs[pid].at.Loaded? && s.procs[pid].at.ret == 0 ==>
              s.procs[pid].at.bytes == block(s.procs[pid].key)[..s.procs[pid].size]
  {
    assert ProcOk(block, exact, s.fs, s.procs[pid]);
  }

  // ---------- a store that returns 0 ----------

  /** A store that has returned 0, or is about to, has its block in place. */
  ghost predicate ProcDelivered(fs: Fs, p: Proc) {
    p.Store? ==>
      && (p.pc.CloseBad? ==> p.pc.err != 0)
      && ((p.pc.Unlink? || p.pc.Stored?) && p.pc.ret == 0 ==> Dest(p.key) in fs.dir)
  }

  ghost predicate Delivered(s: State) {
    forall pid :: pid in s.procs ==> ProcDelivered(s.fs, s.procs[pid])
  }

  lemma StepKeepsBlocks(block: nat -> Bytes, exact: bool, s: State, a: Action, s': State)
    requires Safe(block, exact, s) && Sized(block, s) && Step(block, s, a, s')
    ensures forall k :: Dest(k) in s.fs.dir ==> Dest(k) in s'.fs.dir
  {
    hide Safe, Step;
    forall k | Dest(k) in s.fs.dir ensures Dest(k) in s'.fs.dir {
      if Dest(k) !in s'.fs.dir {
        OnlyOversizedLoadsRemove(block, exact, s, a, s', k);
        assert false;
      }
    }
  }

  lemma CallDelivers(block: nat -> Bytes, fs: Fs, p: Proc, o: Outcome)
    requires ProcDelivered(fs, p) && ProcCall(block, fs, p, o).Some?
    ensures var r := ProcCall(block, fs, p, o).value; ProcDelivered(r.0, r.1)
  {
  }

  lemma StepKeepsDelivered(block: nat -> Bytes, exact: bool, s: State, a: Action, s': State)
    requires Safe(block, exact, s) && Sized(block, s) && Delivered(s) && Step(block, s, a, s')
    ensures Delivered(s')
  {
    hide Safe, ProcCall;
    StepKeepsBlocks(block, exact, s, a, s');
    forall q | q in s'.procs ensures ProcDelivered(s'.fs, s'.procs[q]) {
      if q in s.procs {
        assert ProcDelivered(s.fs, s.procs[q]);
        if a.Call? && a.pid == q {
          CallDelivers(block, s.fs, s.procs[q], a.o);
        }
      }
    }
  }

  lemma {:induction false} RunKeepsBlocks(block: nat -> Bytes, exact: bool, states: seq<State>, actions: seq<Action>,
                                          i: nat, j: nat)
    requires Run(block, states, actions) && Start(block, exact, states[0]) && i <= j < |states|
    requires forall n :: 0 <= n < |states| ==> Sized(block, states[n])
    ensures Safe(block, exact, states[j]) && Delivered(states[j])
    ensures forall k :: Dest(k) in states[i].fs.dir ==> Dest(k) in states[j].fs.dir
    decreases j
  {
    RunIsSafe(block, exact, states, actions, j);
    if j > 0 {
      RunKeepsBlocks(block, exact, states, actions, if i < j then i else j - 1, j - 1);
      StepKeepsDelivered(block, exact, states[j - 1], actions[j - 1], states[j]);
      StepKeepsBlocks(block, exact, states[j - 1], actions[j - 1], states[j]);
    }
  }

  /** A store that returns 0 leaves its block published from then on, whole; a
      store that fails after creating its temp file has left no file. */
  lemma StoreOutcome(block: nat -> Bytes, states: seq<State>, actions: seq<Action>, i: nat, j: nat, pid: nat)
    requires Run(block, states, actions) && Start(block, true, states[0]) && i <= j < |states|
    requires forall n :: 0 <= n < |states| ==> Sized(block, states[n])
    requires pid in states[i].procs && states[i].procs[pid].Store? && states[i].procs[pid].pc.Stored?
    ensures var p := states[i].procs[pid];
            var fs := states[j].fs;
            && (p.pc.ret == 0 ==> Dest(p.key) in fs.dir && fs.dir[Dest(p.key)] in fs.data
                                  && fs.data[fs.dir[Dest(p.key)]] == block(p.key))
            && (p.pc.ret != 0 && p.pc.made.Some? ==> Unnamed(states[i].fs, p.pc.made.value))
  {
    RunKeepsBlocks(block, true, states, actions, i, i);
    RunKeepsBlocks(block, true, states, actions, i, j);
    assert ProcOk(block, true, states[i].fs, states[i].procs[pid]);
  }

  // ---------- what a store and a load answer, by their own calls ----------

  /** A store finds the block, or else fails with the first call that fails, a
      short write counting as EIO, unless that is a rename that finds the block. */
  ghost predicate StoreReturns(src: Bytes, os: seq<Outcome>, ret: int) {
    && |os| >= 1
    && if os[0].err == 0 then |os| == 1 && ret == 0
       else && |os| >= 2
            && if os[1].err != 0 then |os| == 2 && ret == os[1].err
               else && |os| >= 3
                    && if os[2].err != 0 then |os| == 3 && ret == os[2].err
                       else && |os| >= 6
                            && if os[3].err != 0 then |os| == 6 && ret == os[3].err
                               else if os[3].count != |src| then |os| == 6 && ret == EIO
                               else if os[4].err != 0 then |os| == 6 && ret == os[4].err
                               else if os[5].err == 0 then |os| == 6 && ret == 0
                               else |os| == 7 && ret == if os[5].err == EEXIST then 0 else os[5].err
  }

  /** A load fails with its open or its read, or has the leading bytes of the
      file, or finds it too short. */
  ghost predicate LoadReturns(file: Bytes, size: nat, os: seq<Outcome>, ret: int, bytes: Bytes) {
    && |os| >= 1
    && if os[0].err != 0 then |os| == 1 && ret == os[0].err
       else && |os| >= 2
            && if os[1].err != 0 then |os| == 2 && ret == os[1].err
               else if size <= |file| then |os| == 2 && ret == 0 && bytes == file[..size]
               else |os| == 3 && ret == EIO
  }

  /** The temp file is there after the first three calls. */
  ghost predicate Opened(os: seq<Outcome>) {
    |os| >= 3 && os[0].err != 0 && os[1].err == os[2].err == 0
  }

  /** What the program point says about the calls made so far. */
  ghost predicate StoreKnows(src: Bytes, pc: StorePc, os: seq<Outcome>) {
    match pc
    case Check => os == []
    case MakeDirs => |os| == 1 && os[0].err != 0
    case OpenTmp => |os| == 2 && os[0].err != 0 && os[1].err == 0
    case Write(_) => |os| == 3 && Opened(os)
    case CloseBad(_, err) =>
      && |os| == 4 && Opened(os) && (os[3].err != 0 || os[3].count != |src|)
      && err == if os[3].err != 0 then os[3].err else EIO
    case Close(_) => |os| == 4 && Opened(os) && os[3].err == 0 && os[3].count == |src|
    case Rename(_) => |os| == 5 && Opened(os) && os[3].err == 0 && os[3].count == |src| && os[4].err == 0
    case Unlink(_, ret) =>
      && |os| >= 5 && Opened(os)
      && if os[3].err != 0 then |os| == 5 && ret == os[3].err
         else if os[3].count != |src| then |os| == 5 && ret == EIO
         else if os[4].err != 0 then |os| == 5 && ret == os[4].err
         else |os| == 6 && os[5].err != 0 && ret == if os[5].err == EEXIST then 0 else os[5].err
    case Stored(ret, _) => StoreReturns(src, os, ret)
  }

  ghost predicate LoadKnows(file: Bytes, size: nat, at: LoadPc, os: seq<Outcome>) {
    match at
    case OpenSource => os == []
    case Read(_) => |os| == 1 && os[0].err == 0
    case UnlinkShort(_) => |os| == 2 && os[0].err == os[1].err == 0 && |file| < size
    case Loaded(ret, bytes) => LoadReturns(file, size, os, ret, bytes)
  }

  lemma StoreCallKnows(src: Bytes, fs: Fs, tmp: nat, key: nat, pc: StorePc, o: Outcome, os: seq<Outcome>)
    requires StoreKnows(src, pc, os) && StoreCall(src, fs, tmp, key, pc, o).Some?
    ensures StoreKnows(src, StoreCall(src, fs, tmp, key, pc, o).value.1, os + [o])
  {
    assert forall i :: 0 <= i < |os| ==> (os + [o])[i] == os[i];
  }

  lemma LoadCallKnows(file: Bytes, fs: Fs, key: nat, size: nat, at: LoadPc, o: Outcome, os: seq<Outcome>)
    requires LoadKnows(file, size, at, os) && LoadCall(fs, key, size, at, o).Some?
    requires at.Read? && at.ino in fs.data ==> fs.data[at.ino] == file
    ensures LoadKnows(file, size, LoadCall(fs, key, size, at, o).value.1, os + [o])
  {
    assert forall i :: 0 <= i < |os| ==> (os + [o])[i] == os[i];
  }

  /** The outcomes of one process's calls in a run. */
  ghost function OutcomesOf(actions: seq<Action>, pid: nat): seq<Outcome> {
    if actions == [] then []
    else
      var last := actions[|actions| - 1];
      OutcomesOf(actions[..|actions| - 1], pid) + if last.Call? && last.pid == pid then [last.o] else []
  }

  ghost predicate ProcKnows(block: nat -> Bytes, procs: map<nat, Proc>, pid: nat, os: seq<Outcome>) {
    if pid !in procs then os == []
    else
      match procs[pid]
      case Store(_, key, pc) => StoreKnows(block(key), pc, os)
      case Load(key, size, at) => LoadKnows(block(key), size, at, os)
      case Crashed(_) => true
  }

  lemma StepKnows(block: nat -> Bytes, s: State, a: Action, s': State, pid: nat, os: seq<Outcome>)
    requires Safe(block, true, s) && Step(block, s, a, s') && ProcKnows(block, s.procs, pid, os)
    ensures ProcKnows(block, s'.procs, pid, os + if a.Call? && a.pid == pid then [a.o] else [])
  {
    hide StoreKnows, LoadKnows, StoreCall, LoadCall, Safe;
    if a.Call? && a.pid == pid {
      var p := s.procs[pid];
      assert p.Load? && p.at.Read? && p.at.ino in s.fs.data ==> s.fs.data[p.at.ino] == block(p.key) by {
        ReadsItsBlock(block, s, pid);
      }
      match p
      case Store(tmp, key, pc) => StoreCallKnows(block(key), s.fs, tmp, key, pc, a.o, os);
      case Load(key, size, at) => LoadCallKnows(block(key), s.fs, key, size, at, a.o, os);
      case Crashed(_) =>
    } else {
      assert os + [] == os;
      assert a.Begin? && a.pid == pid ==> ProcKnows(block, s'.procs, pid, os) by {
        FreshKnowsNothing(block, s'.procs, pid);
      }
    }
  }

  lemma FreshKnowsNothing(block: nat -> Bytes, procs: map<nat, Proc>, pid: nat)
    ensures pid in procs && Fresh(procs[pid]) ==> ProcKnows(block, procs, pid, [])
  {
  }

  lemma ReadsItsBlock(block: nat -> Bytes, s: State, pid: nat)
    requires Safe(block, true, s) && pid in s.procs
    ensures var p := s.procs[pid];
            p.Load? && p.at.Read? ==> p.at.ino in s.fs.data && s.fs.data[p.at.ino] == block(p.key)
  {
    assert ProcOk(block, true, s.fs, s.procs[pid]);
  }

  lemma {:induction false} RunKnows(block: nat -> Bytes, states: seq<State>, actions: seq<Action>, n: nat, pid: nat)
    requires Run(block, states, actions) && Start(block, true, states[0]) && n < |states|
    ensures ProcKnows(block, states[n].procs, pid, OutcomesOf(actions[..n], pid))
  {
    hide Safe, Step, ProcKnows;
    if n == 0 {
      NobodyKnows(block, states[0].procs, pid);
    } else {
      RunKnows(block, states, actions, n - 1, pid);
      RunIsSafe(block, true, states, actions, n - 1);
      assert actions[..n][..n - 1] == actions[..n - 1];
      StepKnows(block, states[n - 1], actions[n - 1], states[n], pid, OutcomesOf(actions[..n - 1], pid));
    }
  }

  lemma NobodyKnows(block: nat -> Bytes, procs: map<nat, Proc>, pid: nat)
    ensures pid !in procs ==> ProcKnows(block, procs, pid, [])
  {
  }

  /** In every interleaving a store's answer is decided by its own calls: a check
      that finds the block, or calls that all succeed, make it 0. */
  lemma StoreAnswers(block: nat -> Bytes, states: seq<State>, actions: seq<Action>, n: nat, pid: nat)
    requires Run(block, states, actions) && Start(block, true, states[0]) && n < |states|
    requires pid in states[n].procs && states[n].procs[pid].Store? && states[n].procs[pid].pc.Stored?
    ensures StoreReturns(block(states[n].procs[pid].key), OutcomesOf(actions[..n], pid), states[n].procs[pid].pc.ret)
  {
    hide StoreReturns, Run, Start;
    RunKnows(block, states, actions, n, pid);
  }

  /** ... and so is a load's: when its open and read succeed it has the block's
      leading bytes, and fails only if it asked for more than the block has. */
  lemma LoadAnswers(block: nat -> Bytes, states: seq<State>, actions: seq<Action>, n: nat, pid: nat)
    requires Run(block, states, actions) && Start(block, true, states[0]) && n < |states|
    requires pid in states[n].procs && states[n].procs[pid].Load? && states[n].procs[pid].at.Loaded?
    ensures var p := states[n].procs[pid];
            LoadReturns(block(p.key), p.size, OutcomesOf(actions[..n], pid), p.at.ret, p.at.bytes)
  {
    hide LoadReturns, Run, Start;
    RunKnows(block, states, actions, n, pid);
  }

  // ---------- when a complete block can be lost ----------

  ghost predicate HasBlock(block: nat -> Bytes, fs: Fs, k: nat) {
    Dest(k) in fs.dir && fs.dir[Dest(k)] in fs.data && fs.data[fs.dir[Dest(k)]] == block(k)
  }

  ghost predicate LosesBlock(block: nat -> Bytes, states: seq<State>) {
    exists i, k :: 0 <= i < |states| - 1 && HasBlock(block, states[i].fs, k) && Dest(k) !in states[i + 1].fs.dir
  }

  ghost predicate SizedRun(block: nat -> Bytes, s: State, states: seq<State>, actions: seq<Action>) {
    && Run(block, states, actions) && states[0] == s
    && forall n :: 0 <= n < |states| ==> Sized(block, states[n])
  }

  lemma LongFilesAreSafe(block: nat -> Bytes, s: State, states: seq<State>, actions: seq<Action>)
    requires Start(block, false, s) && SizedRun(block, s, states, actions)
    ensures !LosesBlock(block, states)
  {
    forall i, k | 0 <= i < |states| - 1 && HasBlock(block, states[i].fs, k)
      ensures Dest(k) in states[i + 1].fs.dir
    {
      RunKeepsBlocks(block, false, states, actions, i, i + 1);
    }
  }

  lemma RunExtends(block: nat -> Bytes, s: State, states: seq<State>, actions: seq<Action>, a: Action, s': State)
    requires SizedRun(block, s, states, actions)
    requires Step(block, states[|states| - 1], a, s') && Sized(block, s')
    ensures SizedRun(block, s, states + [s'], actions + [a])
  {
    var states', actions' := states + [s'], actions + [a];
    forall i | 0 <= i < |actions'| ensures Step(block, states'[i], actions'[i], states'[i + 1]) {
      if i < |actions| {
        assert Step(block, states[i], actions[i], states[i + 1]);
      }
    }
  }

  lemma FreshIno(data: map<Ino, Bytes>) returns (ino: Ino)
    ensures ino !in data
  {
    ino := 0;
    var below: set<Ino> := {};
    while ino in data
      invariant below <= data.Keys && forall i :: i in below ==> i < ino
      decreases data.Keys - below
    {
      below := below + {ino};
      ino := ino + 1;
    }
  }

  lemma BeginExtends(block: nat -> Bytes, s: State, states: seq<State>, actions: seq<Action>, pid: nat, p: Proc)
      returns (states': seq<State>, actions': seq<Action>)
    requires states != [] && SizedRun(block, s, states, actions) && pid !in states[|states| - 1].procs
    requires Fresh(p) && (p.Load? ==> p.size <= |block(p.key)|)
    ensures states' != [] && SizedRun(block, s, states', actions')
    ensures var last := states[|states| - 1];
            states'[|states'| - 1] == State(last.fs, last.procs[pid := p])
  {
    var last := states[|states| - 1];
    var s' := State(last.fs, last.procs[pid := p]);
    RunExtends(block, s, states, actions, Begin(pid, p), s');
    states', actions' := states + [s'], actions + [Begin(pid, p)];
  }

  lemma CallExtends(block: nat -> Bytes, s: State, states: seq<State>, actions: seq<Action>,
                    pid: nat, p: Proc, o: Outcome, fs': Fs, p': Proc)
      returns (states': seq<State>, actions': seq<Action>)
    requires states != [] && SizedRun(block, s, states, actions)
    requires var last := states[|states| - 1];
             pid in last.procs && last.procs[pid] == p && ProcCall(block, last.fs, p, o) == Some((fs', p'))
    ensures states' != [] && SizedRun(block, s, states', actions')
    ensures var last := states[|states| - 1];
            && states'[|states'| - 1] == State(fs', last.procs[pid := p'])
            && |states'| > 1 && states'[|states'| - 2] == last
  {
    var last := states[|states| - 1];
    var s' := State(fs', last.procs[pid := p']);
    assert p.Load? ==> p'.Load? && p'.key == p.key && p'.size == p.size;
    RunExtends(block, s, states, actions, Call(pid, o), s');
    states', actions' := states + [s'], actions + [Call(pid, o)];
  }

  /** A load of a file shorter than asked gets as far as its unlink. */
  lemma LoadFindsShort(block: nat -> Bytes, s: State, states: seq<State>, actions: seq<Action>, pid: nat, k: nat)
      returns (states': seq<State>, actions': seq<Action>)
    requires states != [] && SizedRun(block, s, states, actions) && pid !in states[|states| - 1].procs
    requires var fs := states[|states| - 1].fs;
             Dest(k) in fs.dir && fs.dir[Dest(k)] in fs.data && |fs.data[fs.dir[Dest(k)]]| < |block(k)|
    ensures states' != [] && SizedRun(block, s, states', actions')
    ensures var last := states[|states| - 1];
            var p' := Load(k, |block(k)|, UnlinkShort(last.fs.dir[Dest(k)]));
            && states'[|states'| - 1].fs == last.fs
            && states'[|states'| - 1].procs.Keys == last.procs.Keys + {pid}
            && states'[|states'| - 1].procs[pid] == p'
            && forall q :: q in last.procs ==> states'[|states'| - 1].procs[q] == last.procs[q]
  {
    hide SizedRun, Run;
    var fs, n := states[|states| - 1].fs, |block(k)|;
    var ino := fs.dir[Dest(k)];
    var ok := Outcome(0, 0, 0);
    states', actions' := BeginExtends(block, s, states, actions, pid, Load(k, n, OpenSource));
    states', actions' := CallExtends(block, s, states', actions', pid, Load(k, n, OpenSource), ok, fs, Load(k, n, Read(ino)));
    states', actions' := CallExtends(block, s, states', actions', pid, Load(k, n, Read(ino)), ok,
                                     fs, Load(k, n, UnlinkShort(ino)));
  }

  /** The unlink of such a load removes whatever file has the name by then. */
  lemma LoadUnlinks(block: nat -> Bytes, s: State, states: seq<State>, actions: seq<Action>, pid: nat, k: nat, ino: Ino)
      returns (states': seq<State>, actions': seq<Action>)
    requires states != [] && SizedRun(block, s, states, actions)
    requires var last := states[|states| - 1];
             pid in last.procs && last.procs[pid] == Load(k, |block(k)|, UnlinkShort(ino))
    ensures states' != [] && SizedRun(block, s, states', actions')
    ensures var last := states[|states| - 1];
            && |states'| > 1 && states'[|states'| - 2] == last
            && states'[|states'| - 1] ==
               State(Fs(last.fs.dir - {Dest(k)}, last.fs.data),
                     last.procs[pid := Load(k, |block(k)|, Loaded(EIO, []))])
  {
    hide SizedRun, Run;
    var fs := states[|states| - 1].fs;
    states', actions' := CallExtends(block, s, states, actions, pid, Load(k, |block(k)|, UnlinkShort(ino)), Outcome(0, 0, 0),
                                     Fs(fs.dir - {Dest(k)}, fs.data), Load(k, |block(k)|, Loaded(EIO, [])));
  }

  /** A store of an absent block, with no failure, publishes it. */
  lemma StorePublishes(block: nat -> Bytes, s: State, states: seq<State>, actions: seq<Action>, pid: nat, t: nat, k: nat)
      returns (states': seq<State>, actions': seq<Action>)
    requires states != [] && SizedRun(block, s, states, actions) && pid !in states[|states| - 1].procs
    requires Tmp(t) !in states[|states| - 1].fs.dir
    ensures states' != [] && SizedRun(block, s, states', actions')
    ensures var last := states[|states| - 1];
            var last' := states'[|states'| - 1];
            && HasBlock(block, last'.fs, k)
            && last.procs.Keys <= last'.procs.Keys
            && forall q :: q in last.procs ==> last'.procs[q] == last.procs[q]
  {
    hide SizedRun, Run;
    var fs, b := states[|states| - 1].fs, block(k);
    var ino := FreshIno(fs.data);
    var ok := Outcome(0, |b|, ino);
    var fs1 := Fs(fs.dir[Tmp(t) := ino], fs.data[ino := []]);
    var fs2 := fs1.(data := fs1.data[ino := fs1.data[ino] + b[..|b|]]);
    var fs3 := fs2.(dir := (fs2.dir - {Tmp(t)})[Dest(k) := fs2.dir[Tmp(t)]]);
    states', actions' := BeginExtends(block, s, states, actions, pid, Store(t, k, Check));
    states', actions' := CallExtends(block, s, states', actions', pid, Store(t, k, Check), Outcome(EIO, 0, 0),
                                     fs, Store(t, k, MakeDirs));
    states', actions' := CallExtends(block, s, states', actions', pid, Store(t, k, MakeDirs), ok, fs, Store(t, k, OpenTmp));
    states', actions' := CallExtends(block, s, states', actions', pid, Store(t, k, OpenTmp), ok, fs1, Store(t, k, Write(ino)));
    states', actions' := CallExtends(block, s, states', actions', pid, Store(t, k, Write(ino)), ok, fs2, Store(t, k, Close(ino)));
    states', actions' := CallExtends(block, s, states', actions', pid, Store(t, k, Close(ino)), ok, fs2, Store(t, k, Rename(ino)));
    states', actions' := CallExtends(block, s, states', actions', pid, Store(t, k, Rename(ino)), ok,
                                     fs3, Store(t, k, Stored(0, Some(ino))));
    assert [] + b[..|b|] == b;
  }

  /** From a start with one file shorter than its block, sized loads and one
      store can delete a complete, freshly published block: two loads find the
      short file, one removes it, a store publishes the block anew, and the
      unlink of the other load removes that. */
  lemma ShortFileLosesBlock(block: nat -> Bytes, s: State, k: nat) returns (states: seq<State>, actions: seq<Action>)
    requires s.procs == map[] && Named(s.fs) && forall t :: Tmp(t) !in s.fs.dir
    requires Dest(k) in s.fs.dir && |s.fs.data[s.fs.dir[Dest(k)]]| < |block(k)|
    ensures SizedRun(block, s, states, actions) && LosesBlock(block, states)
  {
    var ino := s.fs.dir[Dest(k)];
    states, actions := [s], [];
    assert SizedRun(block, s, states, actions);
    states, actions := LoadFindsShort(block, s, states, actions, 0, k);
    states, actions := LoadFindsShort(block, s, states, actions, 1, k);
    states, actions := LoadUnlinks(block, s, states, actions, 0, k, ino);
    states, actions := StorePublishes(block, s, states, actions, 2, 0, k);
    states, actions := LoadUnlinks(block, s, states, actions, 1, k, ino);
    assert HasBlock(block, states[|states| - 2].fs, k);
  }

  /** With no temp files and no process at the start, sized loads never delete a
      complete block on any run if and only if no file is shorter than its block
      at the start. */
  lemma CompleteBlocksAreNeverLostIff(block: nat -> Bytes, s: State)
    requires s.procs == map[] && Named(s.fs) && forall t :: Tmp(t) !in s.fs.dir
    ensures (forall states, actions :: SizedRun(block, s, states, actions) ==> !LosesBlock(block, states))
            <==> (forall k :: Dest(k) in s.fs.dir ==> |s.fs.data[s.fs.dir[Dest(k)]]| >= |block(k)|)
  {
    hide SizedRun, LosesBlock;
    if forall k :: Dest(k) in s.fs.dir ==> |s.fs.data[s.fs.dir[Dest(k)]]| >= |block(k)| {
      assert Start(block, false, s);
      forall states, actions | SizedRun(block, s, states, actions) ensures !LosesBlock(block, states) {
        LongFilesAreSafe(block, s, states, actions);
      }
    } else {
      var k :| Dest(k) in s.fs.dir && |s.fs.data[s.fs.dir[Dest(k)]]| < |block(k)|;
      var states, actions := ShortFileLosesBlock(block, s, k);
    }
  }
}
