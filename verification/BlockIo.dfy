/** The single-block calls and the batch loops of csrc/fs_io.cpp, run by one
    process on its own: the environment still decides every outcome, but no other
    process interleaves. */
module BlockIo {
  import opened Options
  import opened BlockStore

  /** The calls of one store, in order, from a program point. */
  ghost function StoreRun(src: Bytes, fs: Fs, tmp: nat, key: nat, trace: seq<Outcome>): Option<(Fs, StorePc)> {
    if trace == [] then Some((fs, Check))
    else
      match StoreRun(src, fs, tmp, key, trace[..|trace| - 1])
      case None => None
      case Some((fs', pc)) => StoreCall(src, fs', tmp, key, pc, trace[|trace| - 1])
  }

  lemma StoreRunExtends(src: Bytes, fs: Fs, tmp: nat, key: nat, trace: seq<Outcome>, fs1: Fs, pc1: StorePc, o: Outcome)
    requires StoreRun(src, fs, tmp, key, trace) == Some((fs1, pc1))
    ensures StoreRun(src, fs, tmp, key, trace + [o]) == StoreCall(src, fs1, tmp, key, pc1, o)
  {
    assert (trace + [o])[..|trace|] == trace;
  }

  /** A run knows its calls: a complete one has the answer they decide. */
  lemma {:induction false} StoreRunKnows(src: Bytes, fs: Fs, tmp: nat, key: nat, trace: seq<Outcome>)
    requires StoreRun(src, fs, tmp, key, trace).Some?
    ensures StoreKnows(src, StoreRun(src, fs, tmp, key, trace).value.1, trace)
    decreases |trace|
  {
    hide StoreKnows, StoreCall;
    if trace == [] {
      assert StoreKnows(src, Check, []) by { StoreKnowsNothing(src); }
    } else {
      var n := |trace| - 1;
      StoreRunKnows(src, fs, tmp, key, trace[..n]);
      var (fs', pc) := StoreRun(src, fs, tmp, key, trace[..n]).value;
      StoreCallKnows(src, fs', tmp, key, pc, trace[n], trace[..n]);
      assert trace[..n] + [trace[n]] == trace;
    }
  }

  lemma StoreKnowsNothing(src: Bytes)
    ensures StoreKnows(src, Check, [])
  {
  }

  /** The calls of one load, in order. */
  ghost function LoadRun(fs: Fs, key: nat, size: nat, trace: seq<Outcome>): Option<(Fs, LoadPc)> {
    if trace == [] then Some((fs, OpenSource))
    else
      match LoadRun(fs, key, size, trace[..|trace| - 1])
      case None => None
      case Some((fs', at)) => LoadCall(fs', key, size, at, trace[|trace| - 1])
  }

  lemma LoadRunExtends(fs: Fs, key: nat, size: nat, trace: seq<Outcome>, fs1: Fs, at1: LoadPc, o: Outcome)
    requires LoadRun(fs, key, size, trace) == Some((fs1, at1))
    ensures LoadRun(fs, key, size, trace + [o]) == LoadCall(fs1, key, size, at1, o)
  {
    assert (trace + [o])[..|trace|] == trace;
  }

  /** The file under a key, if there is one. */
  ghost function FileAt(fs: Fs, key: nat): Bytes {
    if Dest(key) in fs.dir && fs.dir[Dest(key)] in fs.data then fs.data[fs.dir[Dest(key)]] else []
  }

  /** Until its unlink a load changes nothing, and it reads the file it opened. */
  lemma {:induction false} LoadRunKnows(fs: Fs, key: nat, size: nat, trace: seq<Outcome>)
    requires LoadRun(fs, key, size, trace).Some?
    ensures var (fs', at) := LoadRun(fs, key, size, trace).value;
            && LoadKnows(FileAt(fs, key), size, at, trace)
            && (at.Read? ==> Dest(key) in fs.dir && at.ino == fs.dir[Dest(key)])
            && (!at.Loaded? || |trace| < 3 ==> fs' == fs)
            && (at.Loaded? && |trace| == 3 ==> fs' == if trace[2].err != 0 then fs else fs.(dir := fs.dir - {Dest(key)}))
    decreases |trace|
  {
    if trace != [] {
      var n := |trace| - 1;
      LoadRunKnows(fs, key, size, trace[..n]);
      var (fs', at) := LoadRun(fs, key, size, trace[..n]).value;
      LoadCallKnows(FileAt(fs, key), fs', key, size, at, trace[n], trace[..n]);
      assert trace[..n] + [trace[n]] == trace;
    }
  }

  ghost predicate Grows(fs: Fs, fs': Fs) {
    forall i :: i in fs.data ==> i in fs'.data && fs'.data[i] == fs.data[i]
  }

  /** What a store that runs alone may do: nothing, or add its block whole. */
  ghost predicate StoreResult(src: Bytes, fs: Fs, key: nat, err: int, fs': Fs) {
    && Grows(fs, fs')
    && (fs'.dir == fs.dir
        || (err == 0 && exists ino: Ino :: ino !in fs.data && ino in fs'.data && fs'.data[ino] == src
                                           && fs'.dir == fs.dir[Dest(key) := ino]))
    && (err == 0 ==> Dest(key) in fs'.dir)
  }

  /** A check that finds the block changes nothing; six calls with answer 0 have
      put a new file with the block under its name. */
  ghost predicate StoreChanges(src: Bytes, fs: Fs, key: nat, trace: seq<Outcome>, err: int, fs': Fs) {
    && (|trace| < 4 ==> fs' == fs)
    && (|trace| == 6 && err == 0 ==>
          && Dest(key) in fs'.dir && fs'.dir[Dest(key)] !in fs.data
          && fs'.dir == fs.dir[Dest(key) := fs'.dir[Dest(key)]] && FileAt(fs', key) == src)
  }

  /** The calls are the last ones made since the log was as before. */
  ghost predicate EndsWith(before: seq<Outcome>, log: seq<Outcome>, calls: seq<Outcome>) {
    before <= log && |before| + |calls| <= |log| && log[|log| - |calls|..] == calls
  }

  datatype BatchResult = LengthMismatch | AllDone | FailedAt(index: nat, err: int)

  /** How many leading blocks of a batch went through. */
  function Succeeded(r: BatchResult, n: nat): nat {
    match r
    case LengthMismatch => 0
    case AllDone => n
    case FailedAt(index, _) => index
  }

  class FileSystem {
    var fs: Fs
    /** Every system call made, with its outcome; only the system calls below
        append to it. */
    ghost var log: seq<Outcome>

    /** One system call of a store, with any outcome the file system can give. */
    method StoreSyscall(src: Bytes, tmp: nat, key: nat, pc: StorePc) returns (o: Outcome)
      requires !pc.Stored? && (pc.Write? ==> pc.ino in fs.data)
      modifies this
      ensures StoreCall(src, old(fs), tmp, key, pc, o).Some?
      ensures fs == StoreCall(src, old(fs), tmp, key, pc, o).value.0 && log == old(log) + [o]
    {
      assert StoreCall(src, fs, tmp, key, pc, Outcome(1, 0, 0)).Some?;
      o :| StoreCall(src, fs, tmp, key, pc, o).Some?;
      fs := StoreCall(src, fs, tmp, key, pc, o).value.0;
      log := log + [o];
    }

    method StoreBlock(tmp: nat, key: nat, src: Bytes) returns (err: int, ghost trace: seq<Outcome>)
      modifies this
      ensures StoreResult(src, old(fs), key, err, fs)
      // the calls made are one complete run of the protocol's store, and decide the answer
      ensures log == old(log) + trace
      ensures exists made :: StoreRun(src, old(fs), tmp, key, trace) == Some((fs, Stored(err, made)))
      ensures StoreReturns(src, trace, err) && StoreChanges(src, old(fs), key, trace, err, fs)
    {
      trace := [];
      var o := StoreSyscall(src, tmp, key, Check);
      StoreRunExtends(src, old(fs), tmp, key, trace, old(fs), Check, o);
      trace := trace + [o];
      if o.err == 0 {
        return 0, trace;
      }
      o := StoreSyscall(src, tmp, key, MakeDirs);
      StoreRunExtends(src, old(fs), tmp, key, trace, old(fs), MakeDirs, o);
      trace := trace + [o];
      if o.err != 0 {
        return o.err, trace;
      }
      o := StoreSyscall(src, tmp, key, OpenTmp);
      StoreRunExtends(src, old(fs), tmp, key, trace, old(fs), OpenTmp, o);
      trace := trace + [o];
      if o.err != 0 {
        return o.err, trace;
      }
      err, trace := WriteAndPublish(tmp, key, src, o.ino, old(fs), trace, old(log));
    }

    /** The part of a store that owns a temp file. */
    method WriteAndPublish(tmp: nat, key: nat, src: Bytes, ino: Ino, ghost fs0: Fs, ghost trace: seq<Outcome>, ghost log0: seq<Outcome>)
      returns (err: int, ghost trace': seq<Outcome>)
      requires log == log0 + trace
      requires Tmp(tmp) !in fs0.dir && ino !in fs0.data
      requires fs == Fs(fs0.dir[Tmp(tmp) := ino], fs0.data[ino := []])
      requires StoreRun(src, fs0, tmp, key, trace) == Some((fs, Write(ino)))
      modifies this
      ensures StoreResult(src, fs0, key, err, fs)
      ensures exists made :: StoreRun(src, fs0, tmp, key, trace') == Some((fs, Stored(err, made)))
      ensures log == log0 + trace' && StoreReturns(src, trace', err) && StoreChanges(src, fs0, key, trace', err, fs)
    {
      hide StoreRun;
      trace' := trace;
      var o := StoreSyscall(src, tmp, key, Write(ino));
      StoreRunExtends(src, fs0, tmp, key, trace', old(fs), Write(ino), o);
      trace' := trace' + [o];
      ghost var fs1 := fs;
      if o.err != 0 || o.count != |src| {
        err := if o.err != 0 then o.err else EIO;
        o := StoreSyscall(src, tmp, key, CloseBad(ino, err));
        StoreRunExtends(src, fs0, tmp, key, trace', fs1, CloseBad(ino, err), o);
        trace' := trace' + [o];
        trace' := RemoveTmp(tmp, key, src, ino, err, fs0, trace', log0);
        return;
      }
      assert [] + src[..|src|] == src;
      o := StoreSyscall(src, tmp, key, Close(ino));
      StoreRunExtends(src, fs0, tmp, key, trace', fs1, Close(ino), o);
      trace' := trace' + [o];
      if o.err != 0 {
        err := o.err;
        trace' := RemoveTmp(tmp, key, src, ino, err, fs0, trace', log0);
        return;
      }
      o := StoreSyscall(src, tmp, key, Rename(ino));
      StoreRunExtends(src, fs0, tmp, key, trace', fs1, Rename(ino), o);
      trace' := trace' + [o];
      if o.err != 0 {
        err := if o.err == EEXIST then 0 else o.err;
        trace' := RemoveTmp(tmp, key, src, ino, err, fs0, trace', log0);
        return;
      }
      err := 0;
      assert (fs1.dir - {Tmp(tmp)})[Dest(key) := ino] == fs0.dir[Dest(key) := ino];
      StoreRunKnows(src, fs0, tmp, key, trace');
    }

    method RemoveTmp(tmp: nat, key: nat, src: Bytes, ino: Ino, ret: int, ghost fs0: Fs, ghost trace: seq<Outcome>, ghost log0: seq<Outcome>)
      returns (ghost trace': seq<Outcome>)
      requires log == log0 + trace
      requires Tmp(tmp) !in fs0.dir && ino !in fs0.data && Grows(fs0, fs)
      requires fs.dir == fs0.dir[Tmp(tmp) := ino] && (ret == 0 ==> Dest(key) in fs.dir)
      requires StoreRun(src, fs0, tmp, key, trace) == Some((fs, Unlink(ino, ret)))
      modifies this
      ensures StoreResult(src, fs0, key, ret, fs)
      ensures exists made :: StoreRun(src, fs0, tmp, key, trace') == Some((fs, Stored(ret, made)))
      ensures log == log0 + trace' && StoreReturns(src, trace', ret) && StoreChanges(src, fs0, key, trace', ret, fs)
    {
      StoreRunKnows(src, fs0, tmp, key, trace);
      var o := StoreSyscall(src, tmp, key, Unlink(ino, ret));
      StoreRunExtends(src, fs0, tmp, key, trace, old(fs), Unlink(ino, ret), o);
      trace' := trace + [o];
      StoreRunKnows(src, fs0, tmp, key, trace');
      assert fs.dir == fs0.dir;
    }

    /** Stores in order, stopping at the first error: that of a complete store of
        its block, attempted where the stores before it had led. */
    method BatchStoreBlock(tmps: seq<nat>, keys: seq<nat>, buffers: seq<Bytes>)
      returns (r: BatchResult, ghost before: Fs, ghost trace: seq<Outcome>)
      modifies this
      ensures r.LengthMismatch? <==> !(|tmps| == |keys| == |buffers|)
      ensures r.LengthMismatch? ==> fs == old(fs)
      ensures r.FailedAt? ==> r.index < |keys| && r.err != 0 && BatchStored(old(fs), keys, buffers, r.index, before)
      ensures r.FailedAt? ==> EndsWith(old(log), log, trace)
      ensures r.FailedAt? ==>
                && StoreReturns(buffers[r.index], trace, r.err)
                && exists made :: StoreRun(buffers[r.index], before, tmps[r.index], keys[r.index], trace) == Some((fs, Stored(r.err, made)))
      ensures !r.LengthMismatch? ==> BatchStored(old(fs), keys, buffers, Succeeded(r, |keys|), fs)
    {
      before, trace := fs, [];
      if |keys| != |tmps| || |buffers| != |tmps| {
        return LengthMismatch, before, trace;
      }
      var i := 0;
      while i < |tmps|
        invariant 0 <= i <= |tmps| && old(log) <= log
        invariant BatchStored(old(fs), keys, buffers, i, fs)
      {
        before := fs;
        var err;
        err, trace := StoreBlock(tmps[i], keys[i], buffers[i]);
        BatchStoredStep(old(fs), keys, buffers, i, before, err, fs);
        if err != 0 {
          return FailedAt(i, err), before, trace;
        }
        i := i + 1;
      }
      return AllDone, before, trace;
    }

    /** One system call of a load. */
    method LoadSyscall(key: nat, size: nat, at: LoadPc) returns (o: Outcome)
      requires !at.Loaded?
      modifies this
      ensures LoadCall(old(fs), key, size, at, o).Some?
      ensures fs == LoadCall(old(fs), key, size, at, o).value.0 && log == old(log) + [o]
    {
      assert LoadCall(fs, key, size, at, Outcome(1, 0, 0)).Some?;
      o :| LoadCall(fs, key, size, at, o).Some?;
      fs := LoadCall(fs, key, size, at, o).value.0;
      log := log + [o];
    }

    /** Load one block into a buffer; a failed read may leave anything in it. The
        calls made are one complete run of the protocol's load. */
    method LoadBlock(key: nat, dst: Bytes) returns (err: int, dst': Bytes, ghost trace: seq<Outcome>)
      modifies this
      ensures |dst'| == |dst|
      ensures LoadResult(old(fs), key, |dst|, err, dst', fs)
      ensures LoadRun(old(fs), key, |dst|, trace) == Some((fs, Loaded(err, if err == 0 then dst' else [])))
      // an errno is that of the open or the read; else the file decides
      ensures log == old(log) + trace
      ensures LoadReturns(FileAt(old(fs), key), |dst|, trace, err, dst')
      ensures (|trace| < 3 ==> fs == old(fs)) && (trace[0].err == 0 ==> Dest(key) in old(fs).dir)
      // a short read has filled the front of the buffer
      ensures |trace| == 3 ==> |FileAt(old(fs), key)| < |dst| && dst' == FileAt(old(fs), key) + dst[|FileAt(old(fs), key)|..]
    {
      hide LoadRun;
      dst' := dst;
      NoLoadCalls(fs, key, |dst|);
      var o := LoadSyscall(key, |dst|, OpenSource);
      LoadRunExtends(old(fs), key, |dst|, [], fs, OpenSource, o);
      trace := [] + [o];
      if o.err != 0 {
        return o.err, dst', trace;
      }
      var ino := fs.dir[Dest(key)];
      o := LoadSyscall(key, |dst|, Read(ino));
      LoadRunExtends(old(fs), key, |dst|, trace, fs, Read(ino), o);
      trace := trace + [o];
      if o.err != 0 {
        dst' :| |dst'| == |dst|;
        return o.err, dst', trace;
      }
      var bytes := fs.data[ino];
      if |bytes| < |dst| {
        dst' := bytes + dst[|bytes|..];
        o := LoadSyscall(key, |dst|, UnlinkShort(ino));
        LoadRunExtends(old(fs), key, |dst|, trace, old(fs), UnlinkShort(ino), o);
        return EIO, dst', trace + [o];
      }
      return 0, bytes[..|dst|], trace;
    }

    /** Loads in order, stopping at the first error; the number of blocks read
        is reported with the error. */
    method BatchLoadBlock(keys: seq<nat>, buffers: array<Bytes>) returns (r: BatchResult, ghost trace: seq<Outcome>)
      modifies this, buffers
      ensures r.LengthMismatch? <==> |keys| != buffers.Length
      ensures r.LengthMismatch? ==> fs == old(fs) && buffers[..] == old(buffers[..])
      ensures r.FailedAt? ==> r.index < |keys| && r.err != 0
      ensures forall i :: 0 <= i < buffers.Length ==> |buffers[i]| == |old(buffers[..])[i]|
      ensures var n := Succeeded(r, |keys|);
              && (forall i :: 0 <= i < n ==> Holding(old(fs), keys[i], buffers[i]))
              && (forall i :: n < i < buffers.Length ==> buffers[i] == old(buffers[..])[i])
      ensures r.AllDone? ==> fs == old(fs)
      ensures r.FailedAt? ==> LoadResult(old(fs), keys[r.index], |old(buffers[..])[r.index]|, r.err, buffers[r.index], fs)
      ensures r.FailedAt? ==> EndsWith(old(log), log, trace)
      ensures r.FailedAt? ==>
                && LoadReturns(FileAt(old(fs), keys[r.index]), |old(buffers[..])[r.index]|, trace, r.err, buffers[r.index])
                && LoadRun(old(fs), keys[r.index], |old(buffers[..])[r.index]|, trace) == Some((fs, Loaded(r.err, [])))
    {
      trace := [];
      if buffers.Length != |keys| {
        return LengthMismatch, trace;
      }
      var i := 0;
      while i < |keys|
        invariant 0 <= i <= |keys| && fs == old(fs) && old(log) <= log
        invariant forall j :: 0 <= j < i ==> Holding(fs, keys[j], buffers[j]) && |buffers[j]| == |old(buffers[..])[j]|
        invariant forall j :: i <= j < |keys| ==> buffers[j] == old(buffers[..])[j]
      {
        var err, bytes;
        err, bytes, trace := LoadBlock(keys[i], buffers[i]);
        buffers[i] := bytes;
        if err != 0 {
          return FailedAt(i, err), trace;
        }
        i := i + 1;
      }
      return AllDone, trace;
    }
  }

  lemma NoLoadCalls(fs: Fs, key: nat, size: nat)
    ensures LoadRun(fs, key, size, []) == Some((fs, OpenSource))
  {
  }

  /** The buffer holds the leading bytes of the file under the key. */
  ghost predicate Holding(fs: Fs, key: nat, bytes: Bytes) {
    Dest(key) in fs.dir && fs.dir[Dest(key)] in fs.data && bytes <= fs.data[fs.dir[Dest(key)]]
  }

  /** A load reads the file or fails; it removes the file only if that is
      shorter than the buffer. */
  ghost predicate LoadResult(fs: Fs, key: nat, size: nat, err: int, bytes: Bytes, fs': Fs) {
    && (err == 0 ==> fs' == fs && |bytes| == size && Holding(fs, key, bytes))
    && (fs' == fs
        || (&& err == EIO && fs' == fs.(dir := fs.dir - {Dest(key)})
            && Dest(key) in fs.dir && fs.dir[Dest(key)] in fs.data
            && |fs.data[fs.dir[Dest(key)]]| < size))
  }

  ghost predicate SameEntry(fs: Fs, p: Path, fs': Fs) {
    (p in fs.dir <==> p in fs'.dir) && (p in fs.dir ==> p in fs'.dir && fs'.dir[p] == fs.dir[p])
  }

  ghost predicate Among(p: Path, keys: seq<nat>, n: nat) {
    exists i :: 0 <= i < n && i < |keys| && p == Dest(keys[i])
  }

  /** The destination holds what it held before the batch, or a buffer that the
      batch stored under the same key. */
  ghost predicate StoredAt(fs: Fs, keys: seq<nat>, buffers: seq<Bytes>, n: nat, fs': Fs, i: nat)
    requires i < |keys| == |buffers| && n <= |keys|
  {
    var p := Dest(keys[i]);
    && p in fs'.dir
    && ((p in fs.dir && fs'.dir[p] == fs.dir[p])
        || (fs'.dir[p] in fs'.data
            && exists j :: 0 <= j < n && keys[j] == keys[i] && fs'.data[fs'.dir[p]] == buffers[j]))
  }

  /** After n stores of a batch: those n are in place, and no other name, temp
      files included, has changed. */
  ghost predicate BatchStored(fs: Fs, keys: seq<nat>, buffers: seq<Bytes>, n: nat, fs': Fs) {
    && |keys| == |buffers| && n <= |keys| && Grows(fs, fs')
    && (forall i :: 0 <= i < n ==> StoredAt(fs, keys, buffers, n, fs', i))
    && (forall p :: !Among(p, keys, n) ==> SameEntry(fs, p, fs'))
  }

  lemma AlreadyStored(fs: Fs, keys: seq<nat>, buffers: seq<Bytes>, n: nat, fs': Fs)
    requires BatchStored(fs, keys, buffers, n, fs') && n < |keys| && Dest(keys[n]) in fs'.dir
    ensures StoredAt(fs, keys, buffers, n, fs', n)
  {
    if Among(Dest(keys[n]), keys, n) {
      var j :| 0 <= j < n && Dest(keys[n]) == Dest(keys[j]);
      assert StoredAt(fs, keys, buffers, n, fs', j);
    } else {
      assert SameEntry(fs, Dest(keys[n]), fs');
    }
  }

  lemma BatchStoredStep(fs: Fs, keys: seq<nat>, buffers: seq<Bytes>, n: nat, fs1: Fs, err: int, fs2: Fs)
    requires BatchStored(fs, keys, buffers, n, fs1) && n < |keys|
    requires StoreResult(buffers[n], fs1, keys[n], err, fs2)
    ensures BatchStored(fs, keys, buffers, if err == 0 then n + 1 else n, fs2)
  {
    var m := if err == 0 then n + 1 else n;
    forall i | 0 <= i < m ensures StoredAt(fs, keys, buffers, m, fs2, i) {
      if fs2.dir == fs1.dir {
        if i < n {
          assert StoredAt(fs, keys, buffers, n, fs1, i);
        } else {
          AlreadyStored(fs, keys, buffers, n, fs1);
        }
      } else if keys[i] != keys[n] {
        assert StoredAt(fs, keys, buffers, n, fs1, i);
      }
    }
    forall p | !Among(p, keys, m) ensures SameEntry(fs, p, fs2) {
      assert !Among(p, keys, n);
      if m == n + 1 { assert p != Dest(keys[n]); }
    }
  }

  /** With content-hash names, the blocks before the failure are in place whole. */
  lemma BatchStoredIsWhole(block: nat -> Bytes, fs: Fs, keys: seq<nat>, buffers: seq<Bytes>, n: nat, fs': Fs, i: nat)
    requires BatchStored(fs, keys, buffers, n, fs') && Published(block, true, fs) && i < n
    requires forall j :: 0 <= j < |keys| ==> buffers[j] == block(keys[j])
    ensures HasBlock(block, fs', keys[i])
  {
    assert StoredAt(fs, keys, buffers, n, fs', i);
  }
}
