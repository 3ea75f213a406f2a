/** The configuration directory: replacing wg0.conf atomically, and a whole sync in place. */
module WgFile {
  import opened Wrappers
  import opened Database
  import opened ManagedText
  import opened WgConfig
  import Peers

  /** Where the operating system makes a write fail, if anywhere. Being denied the chown is the
      one failure the writer forgives. */
  datatype Fault =
    | Smooth | StatFails | NoTempFile | WriteFails(written: nat) | ChmodFails
    | ChownDenied | ChownFails | ReplaceFails

  datatype WriteError = MissingTarget | Io(fault: Fault)

  class ConfigDir {
    var target: Option<string>
    var temps: map<nat, string>

    /** What the target held after each change in the directory. */
    ghost var trail: seq<Option<string>>

    constructor (target: Option<string>)
      ensures this.target == target && temps == map[] && trail == [target]
    {
      this.target, temps := target, map[];
      trail := [target];
    }

    method MakeTemp(name: nat)
      requires name !in temps
      modifies this
      ensures temps == old(temps)[name := ""] && target == old(target) && trail == old(trail) + [target]
    {
      temps := temps[name := ""];
      trail := trail + [target];
    }

    method Append(name: nat, text: string)
      requires name in temps
      modifies this
      ensures temps == old(temps)[name := old(temps)[name] + text]
      ensures target == old(target) && trail == old(trail) + [target]
    {
      temps := temps[name := temps[name] + text];
      trail := trail + [target];
    }

    /** Rename over the target, in one step. */
    method Rename(name: nat)
      requires name in temps
      modifies this
      ensures target == Some(old(temps)[name]) && temps == old(temps) - {name}
      ensures trail == old(trail) + [target]
    {
      target := Some(temps[name]);
      temps := temps - {name};
      trail := trail + [target];
    }

    method Unlink(name: nat)
      modifies this
      ensures temps == old(temps) - {name} && target == old(target) && trail == old(trail) + [target]
    {
      temps := temps - {name};
      trail := trail + [target];
    }

    /** The guarded part: fill the temporary file, fix its owner and mode, put it in place. */
    method FillAndRename(name: nat, content: string, fault: Fault) returns (ok: bool)
      requires name in temps && temps[name] == ""
      modifies this
      ensures ok <==> fault !in {ChmodFails, ChownFails, ReplaceFails} && !fault.WriteFails?
      ensures target == if ok then Some(content) else old(target)
      ensures temps - {name} == old(temps) - {name} && (ok ==> name !in temps)
      ensures old(trail) <= trail
      ensures forall i :: |old(trail)| <= i < |trail| ==>
                trail[i] == old(target) || (ok && trail[i] == Some(content))
    {
      if fault.WriteFails? {
        Append(name, content[..if fault.written <= |content| then fault.written else |content|]);
        return false;
      }
      Append(name, content);
      assert temps[name] == content;
      if fault == ChmodFails {
        return false;
      }
      if fault == ChownFails {
        return false;
      }
      if fault == ReplaceFails {
        return false;
      }
      Rename(name);
      return true;
    }

    /** Write via a temporary file and a rename. Wherever it fails, the target holds its old text
        and no temporary file stays behind; at no moment does it hold anything but the old text
        or the whole new one. */
    method WriteAtomic(name: nat, content: string, fault: Fault) returns (r: Result<(), WriteError>)
      requires name !in temps
      modifies this
      ensures r.Success? <==> old(target).Some? && fault in {Smooth, ChownDenied}
      ensures target == if r.Success? then Some(content) else old(target)
      ensures temps == old(temps)
      ensures old(trail) <= trail
      ensures forall i :: |old(trail)| <= i < |trail| ==>
                trail[i] == old(target) || (r.Success? && trail[i] == Some(content))
    {
      if target.None? {
        return Failure(MissingTarget);
      }
      if fault == StatFails || fault == NoTempFile {
        return Failure(Io(fault));
      }
      MakeTemp(name);
      assert temps - {name} == old(temps);
      var ok := FillAndRename(name, content, fault);
      if !ok {
        Unlink(name);
        return Failure(Io(fault));
      }
      assert temps - {name} == temps;
      return Success(());
    }
  }

  datatype SyncError = CannotRead | CannotWrite(error: WriteError) | HelperFailed

  /** A whole sync with nothing else in between: fetch, read, render, replace, reload. The new
      file is a function of the old one and of the table; an error before the rename leaves it
      alone, and a failing helper leaves the new file in place. */
  method SyncFromDb(conf: Layout, dir: ConfigDir, rows: seq<RouterRow>, name: nat, fault: Fault, helperOk: bool)
      returns (r: Result<nat, SyncError>)
    requires ValidConf(conf) && name !in dir.temps
    modifies dir
    ensures var written := old(dir.target).Some? && fault in {Smooth, ChownDenied};
            && dir.target == (if written then Some(Synced(conf, old(dir.target).value, Peers.ActivePeers(rows)))
                              else old(dir.target))
            && (r.Success? <==> written && helperOk)
            && (r.Success? ==> r.value == |Peers.ActivePeers(rows)|)
    ensures ReadInterfaceBlock(conf, dir.target) == ReadInterfaceBlock(conf, old(dir.target))
    ensures dir.temps == old(dir.temps)
  {
    var peers := Peers.FetchActivePeers(rows);
    var block := ReadInterfaceBlock(conf, dir.target);
    if block.Failure? {
      return Failure(CannotRead);
    }
    ghost var before := dir.target.value;
    var text := RenderConfig(conf, block.value, peers);
    SyncIsIdempotent(conf, before, peers, peers);
    var written := dir.WriteAtomic(name, text, fault);
    if written.Failure? {
      return Failure(CannotWrite(written.error));
    }
    if !helperOk {
      return Failure(HelperFailed);
    }
    return Success(|peers|);
  }
}
