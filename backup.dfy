/** The retention step of the FTP backup (BackupThread.run, tabacchi/utility.py:475-483). After the new
    archive has been uploaded, the folder's listing (one entry per file: size, modify stamp and name, as
    the MLSD callback at tabacchi/utility.py:435-438 collects them) is sorted by the modify stamp; the
    last `history` entries are cut off the list, and every file left in it is deleted from the server,
    with the worker's update() called after each deletion. Encryption, the upload and the FTP session
    are not part of this model; the server's deletions are recorded in order. */
module Backup {
  import opened Wrappers
  import opened Worker
  import opened Text

  /** One MLSD entry: the size and stamp fields as the text the pattern captured, and the name. */
  datatype FileInfo = FileInfo(size: string, stamp: string, name: string)

  // ---------------------------------------------------------------------------------------------
  // list.sort(key=lambda fileInfo: fileInfo[1])

  predicate Sorted(s: seq<FileInfo>) {
    forall i, j :: 0 <= i < j < |s| ==> StrLe(s[i].stamp, s[j].stamp)
  }

  /** f placed after every entry whose stamp is not greater, so that equal stamps keep their order. */
  function Insert(f: FileInfo, s: seq<FileInfo>): (r: seq<FileInfo>)
    ensures |r| == |s| + 1 && multiset(r) == multiset(s) + multiset{f}
  {
    if |s| == 0 || !StrLe(s[0].stamp, f.stamp) then [f] + s
    else
      assert s == [s[0]] + s[1..];
      [s[0]] + Insert(f, s[1..])
  }

  /** The listing in stamp order: insertion of each entry, from the first, into the sorted ones before. */
  function SortByModify(s: seq<FileInfo>): (r: seq<FileInfo>)
    ensures |r| == |s| && multiset(r) == multiset(s)
  {
    if |s| == 0 then []
    else
      assert s == s[..|s| - 1] + [s[|s| - 1]];
      Insert(s[|s| - 1], SortByModify(s[..|s| - 1]))
  }

  lemma {:induction false} InsertSorted(f: FileInfo, s: seq<FileInfo>)
    requires Sorted(s)
    ensures Sorted(Insert(f, s))
  {
    if |s| == 0 || !StrLe(s[0].stamp, f.stamp) {
      var r := [f] + s;
      if |s| > 0 {
        StrLeTotal(f.stamp, s[0].stamp);
        forall i, j | 0 <= i < j < |r|
          ensures StrLe(r[i].stamp, r[j].stamp)
        {
          if i == 0 && j > 1 {
            StrLeTransitive(f.stamp, s[0].stamp, s[j - 1].stamp);
          }
        }
      }
    } else {
      InsertSorted(f, s[1..]);
      var t := Insert(f, s[1..]);
      var r := [s[0]] + t;
      assert multiset(t) == multiset(s[1..]) + multiset{f};
      forall j | 0 <= j < |t|
        ensures StrLe(s[0].stamp, t[j].stamp)
      {
        assert t[j] in multiset(t);
        if t[j] != f {
          assert t[j] in multiset(s[1..]);
          var k :| 0 <= k < |s[1..]| && s[1..][k] == t[j];
          assert s[k + 1] == t[j];
        }
      }
      assert forall i, j :: 0 < i < j < |r| ==> r[i] == t[i - 1] && r[j] == t[j - 1];
    }
  }

  /** Sorting gives the listing's entries, each as often as before, in non-decreasing stamp order. */
  lemma {:induction false} SortByModifySorted(s: seq<FileInfo>)
    ensures Sorted(SortByModify(s)) && multiset(SortByModify(s)) == multiset(s)
    decreases |s|
  {
    if |s| > 0 {
      SortByModifySorted(s[..|s| - 1]);
      InsertSorted(s[|s| - 1], SortByModify(s[..|s| - 1]));
    }
  }

  // ---------------------------------------------------------------------------------------------
  // del l[-history:]

  /** Where the slice l[-history:] starts in a list of length len, with Python's slice rules: a
      negative start counts from the end and is clamped at 0, a non-negative one is clamped at len. */
  function SliceStart(len: nat, history: int): (start: nat)
    ensures start <= len
  {
    var i := -history;
    if i < 0 then (if len + i < 0 then 0 else len + i) else (if i > len then len else i)
  }

  /** The entries left in the list after `del l[-history:]`: the files to delete from the server. */
  function ToRemove(sorted: seq<FileInfo>, history: int): seq<FileInfo> {
    sorted[..SliceStart(|sorted|, history)]
  }

  /** The entries cut off the list: the files that stay on the server. */
  function Kept(sorted: seq<FileInfo>, history: int): seq<FileInfo> {
    sorted[SliceStart(|sorted|, history)..]
  }

  /** The retention rule: with a positive history the newest `history` files stay and the others go;
      with history 0 the slice l[-0:] is the whole list, so every file stays and none is deleted; a
      negative history deletes the -history oldest. Together they are the sorted listing. */
  lemma Retention(files: seq<FileInfo>, history: int)
    ensures var sorted := SortByModify(files);
            && ToRemove(sorted, history) + Kept(sorted, history) == sorted
            && multiset(ToRemove(sorted, history)) + multiset(Kept(sorted, history)) == multiset(files)
            && (history > 0 ==> |Kept(sorted, history)| == if history < |files| then history else |files|)
            && (history == 0 ==> ToRemove(sorted, history) == [])
            && (history < 0 ==> |ToRemove(sorted, history)| == if -history < |files| then -history else |files|)
  {
    var sorted := SortByModify(files);
    var k := SliceStart(|sorted|, history);
    assert sorted[..k] + sorted[k..] == sorted;
    calc {
      multiset(files);
      multiset(sorted);
      { assert sorted == sorted[..k] + sorted[k..]; }
      multiset(sorted[..k]) + multiset(sorted[k..]);
    }
  }

  /** Only older files are deleted: every deleted file's stamp is at most every kept file's. */
  lemma OlderRemoved(files: seq<FileInfo>, history: int)
    ensures var sorted := SortByModify(files);
            forall i, j :: 0 <= i < |ToRemove(sorted, history)| && 0 <= j < |Kept(sorted, history)| ==>
              StrLe(ToRemove(sorted, history)[i].stamp, Kept(sorted, history)[j].stamp)
  {
    var sorted := SortByModify(files);
    SortByModifySorted(files);
    var k := SliceStart(|sorted|, history);
    assert forall j :: 0 <= j < |sorted| - k ==> Kept(sorted, history)[j] == sorted[k + j];
  }

  function Names(s: seq<FileInfo>): (r: seq<string>)
    ensures |r| == |s| && forall k :: 0 <= k < |s| ==> r[k] == s[k].name
  {
    seq(|s|, k requires 0 <= k < |s| => s[k].name)
  }

  /** The retention part of the backup thread, holding the listing and the worker whose update() may raise. */
  class BackupThread {
    var fileList: seq<FileInfo>
    const history: int
    const worker: WorkerThread
    /** The files deleted from the server, in order. */
    var deleted: seq<string>

    constructor (listing: seq<FileInfo>, history: int, worker: WorkerThread)
      ensures fileList == listing && this.history == history && this.worker == worker && deleted == []
    {
      fileList := listing;
      this.history := history;
      this.worker := worker;
      deleted := [];
    }

    /** Sort, cut the newest `history` entries off the list, then delete what is left, calling update()
        after the cut and after each deletion. The owner's stop() is an input: stopAfter = Some(m)
        means it lands once m files have been deleted, so the next update() raises StopIteration and the
        rest stay; otherwise the step ends with the worker DONE. */
    method Retain(stopAfter: Option<nat>) returns (stopped: bool)
      requires worker.status != STOPPED
      modifies this`fileList, this`deleted, worker`status, worker`progress
      ensures fileList == ToRemove(SortByModify(old(fileList)), history)
      ensures stopped <==> stopAfter.Some? && stopAfter.value <= |fileList|
      ensures var count := if stopped then stopAfter.value else |fileList|;
              deleted == old(deleted) + Names(fileList[..count])
      ensures worker.status == if stopped then STOPPED else DONE
    {
      fileList := ToRemove(SortByModify(fileList), history);
      stopped := DeleteListed(stopAfter);
    }

    /** The loop over the cut list: one deletion and one update() per file, after a first update(). */
    method DeleteListed(stopAfter: Option<nat>) returns (stopped: bool)
      requires worker.status != STOPPED
      modifies this`deleted, worker`status, worker`progress
      ensures stopped <==> stopAfter.Some? && stopAfter.value <= |fileList|
      ensures var count := if stopped then stopAfter.value else |fileList|;
              deleted == old(deleted) + Names(fileList[..count])
      ensures worker.status == if stopped then STOPPED else DONE
    {
      if stopAfter == Some(0) {
        worker.Stop();
      }
      stopped := worker.Update();
      if stopped {
        assert Names(fileList[..0]) == [];
        return;
      }
      var k := 0;
      while k < |fileList|
        invariant k <= |fileList| && worker.status != STOPPED
        invariant stopAfter.Some? ==> stopAfter.value > k
        invariant deleted == old(deleted) + Names(fileList[..k])
      {
        deleted := deleted + [fileList[k].name];
        assert fileList[..k + 1] == fileList[..k] + [fileList[k]];
        k := k + 1;
        if stopAfter == Some(k) {
          worker.Stop();
        }
        stopped := worker.Update();
        if stopped {
          return;
        }
      }
      assert fileList[..k] == fileList;
      worker.status := DONE;
    }
  }
}
