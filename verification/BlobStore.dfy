/**
The content tier (internal/blobstore/blobstore.go): one final file per message id in a directory
that may also hold temporary files and subdirectories. Durability of a write comes from the
rename, so a failed Put is told apart by whether the rename had happened.
*/
module BlobStore {
  import opened SeqKey

  datatype FileName = Final(id: nat) | Temp(id: nat, serial: nat) | SubDir(serial: nat)

  /** Where an I/O failure strikes Put: before the rename, or at the directory fsync after it. */
  datatype Fault = NoFault | BeforeRename | AfterRename

  function PutFile(files: map<FileName, Bytes>, id: nat, data: Bytes, fault: Fault): map<FileName, Bytes>
  {
    if fault.BeforeRename? then files else files[Final(id) := data]
  }

  /** The names SweepOrphans deletes: final files that no live id claims. */
  function Orphans(files: map<FileName, Bytes>, live: set<nat>): set<FileName>
  {
    set f | f in files && f.Final? && f.id !in live
  }

  class BlobDir {
    var files: map<FileName, Bytes>

    constructor (existing: map<FileName, Bytes>)
      ensures files == existing
    {
      files := existing;
    }

    method Put(id: nat, data: Bytes, fault: Fault) returns (ok: bool)
      modifies this
      ensures ok <==> fault.NoFault?
      ensures files == PutFile(old(files), id, data, fault)
    {
      var serial := FreshSerial(id);
      var tmp := Temp(id, serial);
      files := files[tmp := data];
      ok := false;
      if !fault.BeforeRename? {
        files := (files - {tmp})[Final(id) := data];
        ok := fault.NoFault?;
      } else {
        files := files - {tmp};
      }
    }

    /** A temporary name not yet in the directory, as os.CreateTemp picks one. */
    method FreshSerial(id: nat) returns (serial: nat)
      ensures Temp(id, serial) !in files
    {
      serial := 0;
      var left := files.Keys;
      while Temp(id, serial) in files
        invariant forall k: nat :: k < serial ==> Temp(id, k) !in left
        invariant forall k: nat :: k >= serial && Temp(id, k) in files ==> Temp(id, k) in left
        decreases left
      {
        left := left - {Temp(id, serial)};
        serial := serial + 1;
      }
    }

    method Delete(id: nat, ioFails: bool) returns (ok: bool)
      modifies this
      ensures ok == !ioFails
      ensures files == if ioFails then old(files) else old(files) - {Final(id)}
    {
      ok := !ioFails;
      if ok {
        files := files - {Final(id)};
      }
    }

    method SweepOrphans(live: set<nat>) returns (reclaimed: nat)
      modifies this
      ensures files == old(files) - Orphans(old(files), live)
      ensures reclaimed == |Orphans(old(files), live)|
    {
      var todo := files.Keys;
      ghost var gone: set<FileName> := {};
      reclaimed := 0;
      while todo != {}
        invariant todo <= old(files).Keys && gone <= Orphans(old(files), live) - todo
        invariant files == old(files) - gone
        invariant Orphans(old(files), live) - todo <= gone
        invariant reclaimed == |gone|
        decreases todo
      {
        var name :| name in todo;
        todo := todo - {name};
        if !name.SubDir? && !name.Temp? && name.id !in live {
          var _ := Delete(name.id, false);
          gone := gone + {name};
          reclaimed := reclaimed + 1;
        }
      }
      assert gone == Orphans(old(files), live);
    }
  }
}
