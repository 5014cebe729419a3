/** Putting an uploaded probe binary in place of the old one, whatever file operations fail. */
module Swaps {
  import opened Wrappers

  type Bytes = seq<int>
  type Files = map<string, Bytes>

  function Target(dir: string, exe: string): string { dir + "/" + exe }

  function Upload(target: string): string { target + ".upload" }

  /** Paths the swap may use for, and clear of, old binaries. */
  predicate Old(target: string, path: string) { target + ".old" <= path }

  lemma OldNames(dir: string, exe: string, name: string, stamp: string)
    ensures exe + ".old" <= name ==> Old(Target(dir, exe), dir + "/" + name)
    ensures Old(Target(dir, exe), Target(dir, exe) + ".old")
    ensures Old(Target(dir, exe), Target(dir, exe) + ".old-" + stamp)
  {
    var t := Target(dir, exe);
    if exe + ".old" <= name {
      assert (dir + "/") + (exe + ".old") == t + ".old";
    }
    assert t + ".old-" + stamp == t + ".old" + ("-" + stamp);
  }

  lemma NotOld(target: string)
    ensures !Old(target, target) && !Old(target, Upload(target)) && target != Upload(target)
  {
    assert (target + ".old")[|target| + 1] != Upload(target)[|target| + 1];
  }

  /** The binary at a path, if any. */
  function At(files: Files, path: string): Option<Bytes> { if path in files then Some(files[path]) else None }

  /** Files the swap has no business with are as they were. */
  ghost predicate OthersKept(target: string, was: Files, files: Files) {
    forall p | p != target && p != Upload(target) && !Old(target, p) :: At(files, p) == At(was, p)
  }

  /** Nothing has happened to the old and the new binary. */
  ghost predicate Untouched(target: string, was: Files, files: Files) {
    && OthersKept(target, was, files)
    && At(files, target) == At(was, target)
    && At(files, Upload(target)) == At(was, Upload(target))
  }

  /** The old binary is under `aside` and the new one still where it was uploaded. */
  ghost predicate Aside(target: string, aside: string, was: Files, files: Files) {
    && OthersKept(target, was, files)
    && Old(target, aside)
    && target in was
    && At(files, aside) == At(was, target)
    && target !in files
    && At(files, Upload(target)) == At(was, Upload(target))
  }

  /** The new binary is in place. */
  ghost predicate Replaced(target: string, was: Files, files: Files) {
    && OthersKept(target, was, files)
    && Upload(target) in was
    && At(files, target) == At(was, Upload(target))
    && Upload(target) !in files
  }

  /** Every moment of a swap: one complete binary is in use or can be put back. */
  ghost predicate Safe(target: string, was: Files, files: Files) {
    || Untouched(target, was, files)
    || (exists aside :: Aside(target, aside, was, files))
    || Replaced(target, was, files)
  }

  datatype SwapError = Failed | NotRestored(aside: string)

  /** A file system whose i-th operation does nothing but fail when `fails(i)`. */
  class BinFiles {
    var files: Files
    var ops: nat
    const fails: nat -> bool
    /** The files after every operation. */
    ghost var seen: seq<Files>

    constructor (files: Files, fails: nat -> bool)
      ensures this.files == files && this.fails == fails && ops == 0 && seen == []
    {
      this.files, this.fails, ops, seen := files, fails, 0, [];
    }

    /** The state after one operation that leaves `now` behind. */
    twostate predicate Did(now: Files)
      reads this
    {
      files == now && ops == old(ops) + 1 && seen == old(seen) + [now]
    }

    method Exists(path: string) returns (r: Result<bool, ()>)
      modifies this
      ensures Did(old(files))
      ensures r == if fails(old(ops)) then Err(()) else Ok(path in files)
    {
      r := if fails(ops) then Err(()) else Ok(path in files);
      ops, seen := ops + 1, seen + [files];
    }

    method Remove(path: string) returns (ok: bool)
      modifies this
      ensures ok == (!fails(old(ops)) && path in old(files))
      ensures Did(if ok then old(files) - {path} else old(files))
    {
      ok := !fails(ops) && path in files;
      if ok {
        files := files - {path};
      }
      ops, seen := ops + 1, seen + [files];
    }

    method Rename(from: string, to: string) returns (ok: bool)
      modifies this
      ensures ok == (!fails(old(ops)) && from in old(files))
      ensures Did(if ok then Moved(old(files), from, to) else old(files))
    {
      ok := !fails(ops) && from in files;
      if ok {
        files := Moved(files, from, to);
      }
      ops, seen := ops + 1, seen + [files];
    }

    /** The names in the directory, in the order and as complete as the system gives them. */
    method List(names: seq<string>) returns (r: Result<seq<string>, ()>)
      modifies this
      ensures Did(old(files))
      ensures r == if fails(old(ops)) then Err(()) else Ok(names)
    {
      r := if fails(ops) then Err(()) else Ok(names);
      ops, seen := ops + 1, seen + [files];
    }

    ghost predicate AllSafe(target: string, was: Files)
      reads this
    {
      forall f | f in seen :: Safe(target, was, f)
    }

    /** Best effort: remove leftovers of earlier swaps. */
    method ClearLeftovers(dir: string, exe: string, names: seq<string>)
      requires seen == []
      modifies this
      ensures Untouched(Target(dir, exe), old(files), files)
      ensures AllSafe(Target(dir, exe), old(files))
      ensures ops <= old(ops) + 1 + |names|
      ensures NoNewOlds(Target(dir, exe), {}, old(files), files)
      ensures (forall i | old(ops) <= i < old(ops) + 1 + |names| :: !fails(i)) ==>
          forall n | n in names && exe + ".old" <= n :: dir + "/" + n !in files
    {
      hide Untouched, NoNewOlds, Old, Target;
      var target := Target(dir, exe);
      NothingYet(target, files);
      var listed := List(names);
      if listed.Ok? {
        for i := 0 to |names|
          invariant Untouched(target, old(files), files) && AllSafe(target, old(files))
          invariant old(ops) < ops <= old(ops) + 1 + i
          invariant NoNewOlds(target, {}, old(files), files)
          invariant (forall i | old(ops) <= i < ops :: !fails(i)) ==>
              forall n | n in names[..i] && exe + ".old" <= n :: dir + "/" + n !in files
        {
          if exe + ".old" <= names[i] {
            OldNames(dir, exe, names[i], "");
            Clears(target, dir + "/" + names[i], old(files), files);
            var _ := Remove(dir + "/" + names[i]);
          }
        }
      }
    }

    /** Move the target, if there is one, out of the way. */
    method MoveAside(target: string, stamp: string, ghost was: Files) returns (r: Result<Option<string>, ()>)
      requires Untouched(target, was, files) && AllSafe(target, was) && NoNewOlds(target, {}, was, files)
      modifies this
      ensures AllSafe(target, was)
      ensures r.Err? ==> Untouched(target, was, files)
      ensures r.Ok? ==> Parked(target, r.value, was, files)
      ensures r.Ok? ==> ops == old(ops) + if target in was then 3 else 1
      ensures r.Ok? <==> forall i | old(ops) <= i < old(ops) + (if target in was then 3 else 1) :: !fails(i)
    {
      var there := Exists(target);
      if there.Err? {
        return Err(());
      }
      if !there.value {
        return Ok(None);
      }
      var name := target + ".old";
      var taken := Exists(name);
      if taken.Err? {
        return Err(());
      }
      if taken.value {
        name := target + ".old-" + stamp;
        assert name == target + ".old" + ("-" + stamp);
      }
      MovesAside(target, name, was, files);
      var moved := Rename(target, name);
      r := if moved then Ok(Some(name)) else Err(());
    }

    /** The upload becomes the target, or the old binary does again. */
    method Place(target: string, aside: Option<string>, ghost was: Files) returns (r: Result<(), SwapError>)
      requires AllSafe(target, was) && Parked(target, aside, was, files)
      modifies this
      ensures AllSafe(target, was)
      ensures r.Ok? ==> Replaced(target, was, files)
      ensures r == Err(Failed) ==> Untouched(target, was, files)
      ensures r.Err? && r.error.NotRestored? ==> Aside(target, r.error.aside, was, files)
      ensures r.Ok? <==> Upload(target) in was && !fails(old(ops))
      ensures r.Ok? && (aside.Some? ==> !fails(old(ops) + 1)) ==> NoNewOlds(target, {}, was, files)
    {
      Places(target, aside, was, files);
      var placed := Rename(Upload(target), target);
      if !placed {
        if aside.Some? {
          Restores(target, aside.value, was, files);
          var restored := Rename(aside.value, target);
          if !restored {
            return Err(NotRestored(aside.value));
          }
        }
        return Err(Failed);
      }
      if aside.Some? {
        Drops(target, aside.value, was, files);
        var _ := Remove(aside.value);
      }
      r := Ok(());
    }

    /** Replace the target with its upload. `c` is the number of the first operation that matters. */
    method SwapIn(dir: string, exe: string, stamp: string, names: seq<string>)
        returns (r: Result<(), SwapError>, ghost c: nat)
      requires seen == []
      modifies this
      ensures AllSafe(Target(dir, exe), old(files))
      ensures r.Ok? ==> Replaced(Target(dir, exe), old(files), files)
      ensures r == Err(Failed) ==> Untouched(Target(dir, exe), old(files), files)
      ensures r.Err? && r.error.NotRestored? ==> Aside(Target(dir, exe), r.error.aside, old(files), files)
      ensures c <= old(ops) + 1 + |names|
      ensures
        var target := Target(dir, exe);
        var steps := if target in old(files) then 4 else 2;
        r.Ok? <==> Upload(target) in old(files) && forall i | c <= i < c + steps :: !fails(i)
      ensures r.Ok? && !fails(c + 4) ==> NoNewOlds(Target(dir, exe), {}, old(files), files)
    {
      var target := Target(dir, exe);
      ClearLeftovers(dir, exe, names);
      c := ops;
      var moved := MoveAside(target, stamp, old(files));
      if moved.Err? {
        return Err(Failed), c;
      }
      r := Place(target, moved.value, old(files));
    }
  }

  /** The old binary, if there was one, is under `aside`. */
  ghost predicate Parked(target: string, aside: Option<string>, was: Files, files: Files) {
    match aside
    case Some(name) => Aside(target, name, was, files) && NoNewOlds(target, {name}, was, files)
    case None => target !in was && Untouched(target, was, files) && NoNewOlds(target, {}, was, files)
  }

  /** At every moment of a swap of an existing binary, that binary or the new one is complete somewhere. */
  lemma SomeBinaryLeft(target: string, was: Files, files: Files)
    requires Safe(target, was, files) && target in was
    ensures
      || At(files, target) == At(was, target)
      || At(files, target) == At(was, Upload(target)) != None
      || exists p :: Old(target, p) && At(files, p) == At(was, target)
    ensures Upload(target) in was ==> exists p :: p in {target, Upload(target)} && At(files, p) == At(was, Upload(target))
  {
    if Untouched(target, was, files) {
      assert Upload(target) in {target, Upload(target)};
    } else if aside :| Aside(target, aside, was, files) {
      assert Upload(target) in {target, Upload(target)};
    } else {
      assert target in {target, Upload(target)};
    }
  }

  /** No old binary but those in `but` has appeared or changed. */
  ghost predicate NoNewOlds(target: string, but: set<string>, was: Files, files: Files) {
    forall p | Old(target, p) && p in files && p !in but :: At(files, p) == At(was, p)
  }

  lemma NothingYet(target: string, files: Files)
    ensures Untouched(target, files, files) && NoNewOlds(target, {}, files, files)
  {
  }

  /** Removing an old binary touches nothing that matters. */
  lemma Clears(target: string, path: string, was: Files, files: Files)
    requires Untouched(target, was, files) && NoNewOlds(target, {}, was, files) && Old(target, path)
    ensures Untouched(target, was, files - {path}) && NoNewOlds(target, {}, was, files - {path})
  {
    NotOld(target);
  }

  lemma MovesAside(target: string, name: string, was: Files, files: Files)
    requires Untouched(target, was, files) && target in files && Old(target, name) && NoNewOlds(target, {}, was, files)
    ensures Aside(target, name, was, Moved(files, target, name))
    ensures NoNewOlds(target, {name}, was, Moved(files, target, name))
  {
    NotOld(target);
  }

  lemma Places(target: string, aside: Option<string>, was: Files, files: Files)
    requires Parked(target, aside, was, files)
    ensures Upload(target) in files <==> Upload(target) in was
    ensures Upload(target) in files ==>
        var moved := Moved(files, Upload(target), target);
        Replaced(target, was, moved) && NoNewOlds(target, if aside.Some? then {aside.value} else {}, was, moved)
  {
    NotOld(target);
  }

  lemma Restores(target: string, aside: string, was: Files, files: Files)
    requires Aside(target, aside, was, files)
    ensures aside in files && Untouched(target, was, Moved(files, aside, target))
  {
    NotOld(target);
  }

  lemma Drops(target: string, aside: string, was: Files, files: Files)
    requires Replaced(target, was, files) && Old(target, aside) && NoNewOlds(target, {aside}, was, files)
    ensures Replaced(target, was, files - {aside}) && NoNewOlds(target, {}, was, files - {aside})
  {
    NotOld(target);
  }

  function Moved(files: Files, from: string, to: string): Files
    requires from in files
  {
    (files - {from})[to := files[from]]
  }
}
