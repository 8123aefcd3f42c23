/**
 The goroutines of DirCache (src/autocert/cache.go) and FileDatabase (src/filedb.go) as code that
 changes a directory in place, each call undisturbed by others. Every system call is also noted as
 a step of FileStore, so the history of the object is one of the runs that module speaks about.
 */
module DirCache {
  import opened Wrappers
  import opened FileStore

  /** Which system calls of one Put fail, and whether its context is cancelled when it looks. */
  datatype Fortune = Fortune(create: bool, write: bool, close: bool, cancelled: bool, rename: bool, remove: bool)

  class Directory {
    const removes: bool
    var dir: map<Name, nat>
    var files: map<nat, string>
    var next: nat
    ghost var ws: seq<World>
    ghost var ss: seq<Step>

    ghost function Now(): World
      reads this
      requires ws != []
    {
      ws[|ws| - 1]
    }

    /** The history is a run that ends in this directory; numbers from `next` on are unused. */
    ghost predicate Valid()
      reads this
    {
      && IsRun(Store(removes), ws, ss)
      && Now().dir == dir && Now().files == files
      && (forall p :: p in Now().puts ==> p < next)
      && (forall d :: d in Now().deletes ==> d < next)
    }

    constructor (removes: bool)
      ensures Valid() && this.removes == removes && dir == map[]
    {
      this.removes, dir, files, next := removes, map[], map[], 0;
      ws, ss := [FileStore.Start()], [];
    }

    ghost function Lookup(key: string): Option<string>
      reads this
      requires ws != []
    {
      Stored(Now(), key)
    }

    ghost method Note(s: Step)
      requires IsRun(Store(removes), ws, ss) && Enabled(Now(), s)
      modifies this`ws, this`ss
      ensures IsRun(Store(removes), ws, ss)
      ensures ss == old(ss) + [s] && ws == old(ws) + [Apply(Store(removes), old(Now()), s)]
      ensures forall key :: Lookup(key) == StoredAfter(old(Now()), s, key)
    {
      RunKeeps(Store(removes), ws, ss, |ss|);
      forall key {
        StoredStep(Store(removes), Now(), s, key);
      }
      RunExtends(Store(removes), ws, ss, s);
      ws, ss := ws + [Apply(Store(removes), Now(), s)], ss + [s];
    }

    /** The Put or Delete with number p is where it was but for its own step s. */
    ghost predicate Stepped(puts: map<nat, Put>, p: nat, s: Step)
      reads this
      requires ws != []
    {
      p in puts && PutEnabled(puts[p], s) && Now().puts == puts[p := PutStep(Store(removes), puts[p], s)]
    }

    method Begin(key: string, data: string) returns (p: nat)
      requires Valid()
      modifies this`next, this`ws, this`ss
      ensures Valid() && p == old(next) && p !in old(Now()).puts
      ensures Now().puts == old(Now()).puts[p := FileStore.Put(key, data, false, Starting, None)]
      ensures ss == old(ss) + [StartPut(p, key, data)]
      ensures forall k :: Lookup(k) == old(Lookup(k))
    {
      p := next;
      next := next + 1;
      Note(StartPut(p, key, data));
    }

    ghost method Cancel(p: nat)
      requires Valid() && p in Now().puts
      modifies this`ws, this`ss
      ensures Valid() && Stepped(old(Now()).puts, p, CancelPut(p))
      ensures ss == old(ss) + [CancelPut(p)]
      ensures forall k :: Lookup(k) == old(Lookup(k))
    {
      Note(CancelPut(p));
    }

    /** ioutil.TempFile */
    method CreateTemp(p: nat, ok: bool)
      requires Valid() && p in Now().puts && Now().puts[p].phase == Starting
      modifies this`dir, this`files, this`ws, this`ss
      ensures Valid() && Stepped(old(Now()).puts, p, Create(p, ok))
      ensures dir == if ok then old(dir)[Temp(p) := p] else old(dir)
      ensures ss == old(ss) + [Create(p, ok)]
      ensures forall k :: Lookup(k) == old(Lookup(k))
    {
      if ok {
        dir, files := dir[Temp(p) := p], files[p := []];
      }
      Note(Create(p, ok));
    }

    /** f.Write, which may stop before the end. */
    method Write(p: nat, data: string, ok: bool)
      requires Valid() && p in Now().puts && Now().puts[p].data == data && Now().puts[p].phase == Writing(0)
      modifies this`files, this`ws, this`ss
      ensures Valid() && p in Now().puts && Now().puts.Keys == old(Now()).puts.Keys
      ensures Now().puts[p] ==
              old(Now()).puts[p].(phase := if ok then Writing(|data|) else WindUp(Store(removes), true, false))
      ensures ss == old(ss) + (if !ok then [WriteFails(p)] else if data == [] then [] else [WriteMore(p, |data|)])
      ensures forall k :: Lookup(k) == old(Lookup(k))
    {
      if !ok {
        Note(WriteFails(p));
      } else if data != [] {
        files := files[p := data];
        assert data[..|data|] == data;
        Note(WriteMore(p, |data|));
      }
    }

    ghost method CloseFile(p: nat, ok: bool)
      requires Valid() && p in Now().puts && Now().puts[p].phase == Writing(|Now().puts[p].data|)
      modifies this`ws, this`ss
      ensures Valid() && Stepped(old(Now()).puts, p, Close(p, ok))
      ensures ss == old(ss) + [Close(p, ok)]
      ensures forall k :: Lookup(k) == old(Lookup(k))
    {
      Note(Close(p, ok));
    }

    ghost method Look(p: nat)
      requires Valid() && p in Now().puts && Now().puts[p].phase == Checking
      modifies this`ws, this`ss
      ensures Valid() && Stepped(old(Now()).puts, p, Check(p))
      ensures ss == old(ss) + [Check(p)]
      ensures forall k :: Lookup(k) == old(Lookup(k))
    {
      Note(Check(p));
    }

    /** os.Rename */
    method RenameTemp(p: nat, key: string, ok: bool)
      requires Valid() && p in Now().puts && Now().puts[p].phase == Renaming && Now().puts[p].key == key
      modifies this`dir, this`ws, this`ss
      ensures Valid() && Stepped(old(Now()).puts, p, Rename(p, ok))
      ensures ok ==> old(Temp(p) in dir) && dir == (old(dir) - {Temp(p)})[Final(key) := p]
      ensures !ok ==> dir == old(dir)
      ensures ss == old(ss) + [Rename(p, ok)]
      ensures forall k :: Lookup(k) == if ok && k == key then Some(Now().puts[p].data) else old(Lookup(k))
    {
      RunKeeps(Store(removes), ws, ss, |ss|);
      assert PutFits(Now(), p);
      if ok {
        dir := (dir - {Temp(p)})[Final(key) := dir[Temp(p)]];
      }
      Note(Rename(p, ok));
    }

    /** os.Remove of the temporary file */
    method Remove(p: nat, ok: bool)
      requires Valid() && p in Now().puts && Now().puts[p].phase.Removing?
      modifies this`dir, this`ws, this`ss
      ensures Valid() && Stepped(old(Now()).puts, p, RemoveTemp(p, ok))
      ensures dir == if ok then old(dir) - {Temp(p)} else old(dir)
      ensures ss == old(ss) + [RemoveTemp(p, ok)]
      ensures forall k :: Lookup(k) == old(Lookup(k))
    {
      if ok {
        dir := dir - {Temp(p)};
      }
      Note(RemoveTemp(p, ok));
    }

    /** The end of a goroutine that has a temporary file: DirCache removes it, unless that fails. */
    method WindUpFile(p: nat, ghost failed: bool, ghost renamed: bool, remove: bool)
      requires Valid() && p in Now().puts && Now().puts[p].phase == WindUp(Store(removes), failed, renamed)
      modifies this`dir, this`ws, this`ss
      ensures Valid() && old(ss) <= ss && p in Now().puts && Now().puts.Keys == old(Now()).puts.Keys
      ensures Now().puts[p] ==
              old(Now()).puts[p].(phase := Finished(failed, renamed, !renamed && !(removes && remove)))
      ensures forall k :: Lookup(k) == old(Lookup(k))
    {
      if removes {
        Remove(p, remove);
      }
    }

    /** writeTempFile, and the check of the context that follows it. */
    method WriteTempFile(p: nat, data: string, f: Fortune) returns (ok: bool)
      requires Valid() && p in Now().puts && Now().puts[p].data == data && Now().puts[p].phase == Starting
      modifies this`dir, this`files, this`ws, this`ss
      ensures Valid() && p in Now().puts && Now().puts.Keys == old(Now()).puts.Keys
      ensures Now().puts[p] == old(Now()).puts[p].(phase := Now().puts[p].phase)
      ensures ok == (f.create && f.write && f.close)
      ensures Now().puts[p].phase ==
              if ok then Checking else Finished(true, false, f.create && !(removes && f.remove))
      ensures old(ss) <= ss && forall k :: Lookup(k) == old(Lookup(k))
    {
      CreateTemp(p, f.create);
      if !f.create {
        return false;
      }
      Write(p, data, f.write);
      if !f.write {
        WindUpFile(p, true, false, f.remove);
        return false;
      }
      CloseFile(p, f.close);
      if !f.close {
        WindUpFile(p, true, false, f.remove);
      }
      return f.close;
    }

    /** What follows once the temporary file is complete. */
    method Replace(p: nat, key: string, f: Fortune) returns (failed: bool)
      requires Valid() && p in Now().puts && Now().puts[p].phase == Checking
      requires Now().puts[p].key == key && Now().puts[p].cancelled == f.cancelled
      modifies this`dir, this`ws, this`ss
      ensures Valid() && old(ss) <= ss && p in Now().puts && Now().puts.Keys == old(Now()).puts.Keys
      ensures failed == (!f.cancelled && !f.rename)
      ensures Now().puts[p] ==
              old(Now()).puts[p].(phase :=
                Finished(failed, !failed && !f.cancelled, (failed || f.cancelled) && !(removes && f.remove)))
      ensures forall k :: Lookup(k) ==
                if k == key && !failed && !f.cancelled then Some(old(Now()).puts[p].data) else old(Lookup(k))
    {
      Look(p);
      if f.cancelled {
        WindUpFile(p, false, false, f.remove);
        return false;
      }
      RenameTemp(p, key, f.rename);
      WindUpFile(p, !f.rename, f.rename, f.remove);
      return !f.rename;
    }

    /**
     Put, or putFile. The key is replaced by the whole data or nothing that is stored changes; and
     the steps it adds to the history are those of one Put that ends.
     */
    method Put(key: string, data: string, f: Fortune) returns (failed: bool)
      requires Valid()
      modifies this
      ensures Valid() && old(ss) <= ss
      ensures failed <==> !f.create || !f.write || !f.close || (!f.cancelled && !f.rename)
      ensures forall k :: Lookup(k) == if k == key && !failed && !f.cancelled then Some(data) else old(Lookup(k))
      ensures var p := old(next);
              && p in Now().puts && Now().puts.Keys == old(Now()).puts.Keys + {p}
              && Now().puts[p] == FileStore.Put(key, data, f.cancelled,
                                                Finished(failed, !failed && !f.cancelled,
                                                         f.create && (failed || f.cancelled) && !(removes && f.remove)), None)
    {
      var p := Begin(key, data);
      if f.cancelled {
        Cancel(p);
      }
      var ok := WriteTempFile(p, data, f);
      if !ok {
        return true;
      }
      failed := Replace(p, key, f);
    }

    /** Get, or getFile: what the key's file holds. */
    method Get(key: string) returns (outcome: ReadOutcome)
      requires Valid()
      ensures outcome == (match Lookup(key) case Some(data) => Complete(data) case None => Absent)
    {
      RunKeeps(Store(removes), ws, ss, |ss|);
      if Final(key) !in dir {
        return Absent;
      }
      assert PutFits(Now(), dir[Final(key)]);
      return Complete(files[dir[Final(key)]]);
    }

    /** Delete, or deleteFile: removing a key that is not there is not an error. */
    method Delete(key: string, ok: bool) returns (failed: bool)
      requires Valid()
      modifies this
      ensures Valid() && old(ss) <= ss
      ensures failed <==> !ok && Final(key) in old(dir)
      ensures forall k :: Lookup(k) == if k == key && ok then None else old(Lookup(k))
      ensures Now().puts == old(Now()).puts
    {
      var d := next;
      next := next + 1;
      Note(StartDelete(d, key));
      failed := !ok && Final(key) in dir;
      if ok {
        dir := dir - {Final(key)};
      }
      Note(Unlink(d, ok));
    }
  }
}
