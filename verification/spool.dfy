/**
 The agent's on-disk report queue (internal/agent/spool.go). The directory is the set of sequence
 numbers whose file is present; SpoolNames shows that names and numbers correspond. Each method
 runs under the spool's mutex.
 */
module Spools {
  import opened Prelude

  // ----- directories -----

  function Oldest(files: set<nat>): nat
    requires files != {}
  {
    Least(files)
  }

  /** What is left when the oldest files beyond `maximum` are dropped. */
  function Newest(files: set<nat>, maximum: nat): set<nat> {
    if |files| <= maximum then files else Newest(files - {Oldest(files)}, maximum)
  }

  /** Trimming keeps the largest numbers: at most `maximum` of them, and nothing larger is dropped. */
  lemma {:induction false} NewestKeepsTheLargest(files: set<nat>, maximum: nat)
    ensures Newest(files, maximum) <= files
    ensures |Newest(files, maximum)| == if |files| <= maximum then |files| else maximum
    ensures forall kept, dropped | kept in Newest(files, maximum) && dropped in files - Newest(files, maximum) ::
              dropped < kept
  {
    if |files| > maximum {
      var oldest := Oldest(files);
      NewestKeepsTheLargest(files - {oldest}, maximum);
      forall kept, dropped | kept in Newest(files, maximum) && dropped in files - Newest(files, maximum)
        ensures dropped < kept
      {
        assert kept in files - {oldest};
        if dropped != oldest {
          assert dropped in files - {oldest} - Newest(files - {oldest}, maximum);
        }
      }
    }
  }

  /** Dropping one more file drops the oldest of those left. */
  lemma {:induction false} DropOneMore(files: set<nat>, keep: nat)
    requires keep < |files|
    ensures Newest(files, keep + 1) != {}
    ensures Newest(files, keep) == Newest(files, keep + 1) - {Oldest(Newest(files, keep + 1))}
  {
    if |files| > keep + 1 {
      DropOneMore(files - {Oldest(files)}, keep);
    }
  }

  /** A listing names the oldest file first; without it, it lists the rest. */
  lemma ListingShrinks(files: set<nat>)
    ensures |Ascending(files)| == |files|
    ensures files != {} ==> Ascending(files)[0] == Oldest(files)
                            && Ascending(files)[1..] == Ascending(files - {Oldest(files)})
  {
    AscendingListsTheSet(files);
  }

  // ----- the spool -----

  /** How far Enqueue gets; everything but Completes returns an error. */
  datatype Fate =
    | Completes
    | FailsBeforeRename
    | FailsAfterRename        // the directory sync
    | FailsToList             // the listing of trimLocked
    | FailsToEvict(removed: nat)  // the removal after that many
    | FailsToSync             // the directory sync after the evictions

  /** How many of `count` files a trim leaves. */
  function Keep(count: nat, maximum: nat, fate: Fate): nat {
    match fate
    case FailsToList => count
    case FailsToEvict(removed) => if count > maximum + removed then count - removed else maximum
    case _ => maximum
  }

  class Spool {
    const maximum: nat
    var files: set<nat>    // what the directory shows
    var synced: set<nat>   // what the last directory sync made durable
    var wake: bool         // a token in the one-slot channel

    constructor Over(directory: set<nat>, maximum: nat)
      ensures files == synced == directory && this.maximum == maximum && !wake
    {
      files, synced, this.maximum, wake := directory, directory, maximum, false;
    }

    /**
     NewSpool: refused without a positive capacity, if the directory cannot be prepared, or if the trim
     fails; otherwise at most `maximum` files remain. `left` is the directory afterwards.
     */
    static method NewSpool(directory: set<nat>, maximum: int, prepared: bool, fate: Fate)
      returns (spool: Spool?, left: set<nat>)
      ensures left == if maximum < 1 || !prepared then directory
                      else Newest(directory, Keep(|directory|, maximum, fate))
      ensures spool != null <==>
                maximum >= 1 && prepared && !fate.FailsToList? && |left| <= maximum
                && !(fate.FailsToSync? && left != directory)
      ensures spool != null ==>
                fresh(spool) && spool.maximum == maximum && !spool.wake
                && spool.files == spool.synced == left == Newest(directory, maximum)
    {
      if maximum < 1 || !prepared {
        return null, directory;
      }
      spool := new Spool.Over(directory, maximum);
      var dropped, ok := spool.Trim(fate);
      left := spool.files;
      NewestKeepsTheLargest(directory, Keep(|directory|, maximum, fate));
      if !ok {
        spool := null;
      }
    }

    /** trimLocked: remove the oldest files until at most `maximum` remain, then sync. */
    method Trim(fate: Fate) returns (dropped: nat, ok: bool)
      modifies this`files, this`synced
      ensures files == Newest(old(files), Keep(|old(files)|, maximum, fate))
      ensures dropped == |old(files)| - |files|
      ensures ok <==> !fate.FailsToList? && |files| <= maximum && !(fate.FailsToSync? && files != old(files))
      ensures synced == if ok && files != old(files) then files else old(synced)
    {
      dropped, ok := 0, true;
      if fate.FailsToList? {
        return 0, false;
      }
      var listing := Ascending(files);
      ghost var before := files;
      ListingShrinks(files);
      while |listing| > maximum
        invariant Ascending(files) == listing && |listing| == |files|
        invariant dropped + |files| == |before|
        invariant files == Newest(before, |files|)
        invariant fate.FailsToEvict? ==> dropped <= fate.removed
        invariant dropped > 0 ==> |files| >= maximum && files != before
        invariant dropped == 0 ==> files == before
        invariant synced == old(synced)
      {
        if fate.FailsToEvict? && dropped == fate.removed {
          return dropped, false;
        }
        ListingShrinks(files);
        DropOneMore(before, |files| - 1);
        files := files - {listing[0]};
        listing := listing[1..];
        dropped := dropped + 1;
      }
      if dropped > 0 {
        if fate.FailsToSync? {
          return dropped, false;
        }
        synced := files;
      }
    }

    /** Enqueue: commit the report, wake the sender, and drop the oldest reports beyond capacity. */
    method Enqueue(sequence: nat, fate: Fate) returns (dropped: nat, ok: bool)
      modifies this`files, this`synced, this`wake
      ensures var refused := sequence == 0 || sequence in old(files) || fate.FailsBeforeRename?;
              var added := old(files) + {sequence};
              if refused then
                !ok && dropped == 0 && files == old(files) && synced == old(synced) && wake == old(wake)
              else if fate.FailsAfterRename? then
                !ok && dropped == 0 && files == added && synced == old(synced) && wake
              else
                && wake
                && files == Newest(added, Keep(|added|, maximum, fate))
                && dropped == |added| - |files|
                && (ok <==> !fate.FailsToList? && |files| <= maximum && !(fate.FailsToSync? && files != added))
                && synced == if ok then files else added
    {
      if sequence == 0 || sequence in files || fate.FailsBeforeRename? {
        return 0, false;
      }
      files := files + {sequence};
      wake := true;
      if fate.FailsAfterRename? {
        return 0, false;
      }
      synced := files;
      dropped, ok := Trim(fate);
    }

    /**
     Peek: the oldest report, if there is one; an error if the directory cannot be listed, or if the oldest
     file cannot be read, is too large or does not hold the report it is named for.
     */
    method Peek(listable: bool, readable: bool) returns (report: Option<nat>, ok: bool)
      ensures ok <==> listable && (files == {} || readable)
      ensures report == if ok && files != {} then Some(Oldest(files)) else None
    {
      if !listable {
        return None, false;
      }
      var listing := Ascending(files);
      ListingShrinks(files);
      if |listing| == 0 {
        return None, true;
      }
      if !readable {
        return None, false;
      }
      return Some(listing[0]), true;
    }

    /** Acknowledge: remove the file, which may already have been evicted, and sync; either may fail. */
    method Acknowledge(sequence: nat, removes: bool, syncs: bool) returns (ok: bool)
      modifies this`files, this`synced
      ensures ok <==> removes && syncs
      ensures files == if removes then old(files) - {sequence} else old(files)
      ensures synced == if ok then files else old(synced)
    {
      if !removes {
        return false;
      }
      files := files - {sequence};
      if !syncs {
        return false;
      }
      synced := files;
      ok := true;
    }
  }

  /** The newest `maximum` numbers of an upward-closed set of numbers are upward closed too. */
  lemma {:induction false} TrimKeepsSuffix(files: set<nat>, all: set<nat>, maximum: nat)
    requires forall x, y | x in files && y in all && x < y :: y in files
    ensures forall x, y | x in Newest(files, maximum) && y in all && x < y :: y in Newest(files, maximum)
  {
    NewestKeepsTheLargest(files, maximum);
    forall x, y | x in Newest(files, maximum) && y in all && x < y ensures y in Newest(files, maximum) {
      assert y in files;
      assert y !in files - Newest(files, maximum);
    }
  }
}
