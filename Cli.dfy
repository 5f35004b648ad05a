/**
 * The top level of yafu.py (lines 226-247): load the record store, run the
 * one action the command line chose, and save the store again. Uploading
 * appends one record per file, in argument order; deleting and listing
 * leave the store as it was.
 */
module Cli {
  import opened Common
  import opened Records
  import opened Expansion
  import opened Template
  import opened Listing
  import opened Upload

  /** The loaded upload ledger, the list the script appends to. */
  class RecordStore {
    var records: seq<Record>

    /** Loading the database; a load that fails for any reason gives the empty list (yafu.py:226-229). */
    constructor Load(loaded: Option<seq<Record>>)
      ensures records == (if loaded.Some? then loaded.value else [])
    {
      records := if loaded.Some? then loaded.value else [];
    }

    /** `record_storage.append(record)` (yafu.py:238). */
    method Append(r: Record)
      modifies this
      ensures records == old(records) + [r]
    {
      records := records + [r];
    }
  }

  /** The action the command line chose: exactly one of --upload, --delete and --list. */
  datatype Action = UploadFiles(files: seq<string>) | DeleteUrls(urls: seq<string>) | ListStore

  /** Why a run stopped early: the unknown-shortcut error while rendering, or an unparsable expiry code. */
  datatype Abort = ShortcutAbort(c: char) | ExpiryAbort

  /** What a run did: the lines it printed, the URLs it posted to, and how it stopped early, if it did. */
  datatype Session = Session(records: seq<Record>, lines: seq<string>, posts: seq<string>, abort: Option<Abort>)

  /** Where uploads are posted (yafu.py:186). */
  function UploadEndpoint(opts: Options): string
  {
    opts.baseUrl + "/index.php"
  }

  /**
   * One file of the upload loop (yafu.py:232-238): post it, build its record,
   * print the record through the format at `renderClock`, and append it.
   * The post happens even when what follows raises; the record is appended
   * only after it was printed.
   */
  function UploadStep(acc: Session, file: string, reply: Reply, renderClock: int,
                      opts: Options, strftime: (int, string) -> string): (session: Session)
  {
    if acc.abort.Some? then acc
    else
      var posts := acc.posts + [UploadEndpoint(opts)];
      match NewRecord(file, opts, reply)
      case None => Session(acc.records, acc.lines, posts, Some(ExpiryAbort))
      case Some(rec) =>
        match Substitute(opts.format, Resolver(rec, Env(renderClock, opts.dateFormat, strftime)))
        case Failed(c) => Session(acc.records, acc.lines, posts, Some(ShortcutAbort(c)))
        case Done(text) => Session(acc.records + [rec], acc.lines + [text], posts, None)
  }

  /** The upload loop over the first files, with the service's replies and the render clocks for each. */
  function UploadSession(files: seq<string>, replies: seq<Reply>, clocks: seq<int>,
                         opts: Options, strftime: (int, string) -> string): (session: Session)
    requires |files| == |replies| == |clocks|
    decreases |files|
  {
    if files == [] then Session([], [], [], None)
    else
      var k := |files| - 1;
      UploadStep(UploadSession(files[..k], replies[..k], clocks[..k], opts, strftime),
                 files[k], replies[k], clocks[k], opts, strftime)
  }

  /**
   * The script's body after argument parsing. The store is the one loaded;
   * `replies` and `clocks` stand for what the service answers to each upload
   * and when its record is printed; `now` is the time a listing compares
   * expiry against. `saved` is what pickle.dump writes, None when an error
   * ended the script before it.
   */
  method Run(store: RecordStore, action: Action, opts: Options,
             replies: seq<Reply>, clocks: seq<int>, now: int, strftime: (int, string) -> string)
    returns (out: Session, saved: Option<seq<Record>>)
    requires action.UploadFiles? ==> |action.files| == |replies| == |clocks|
    modifies store
    ensures action.UploadFiles? ==>
      out == UploadSession(action.files, replies, clocks, opts, strftime) &&
      store.records == old(store.records) + out.records
    ensures action.DeleteUrls? ==>
      out == Session([], [], action.urls, None) && store.records == old(store.records)
    ensures action.ListStore? ==>
      var l := ListSpec(old(store.records), opts, ListEnv(opts, now, strftime));
      out == Session([], l.lines, [], if l.abort.Some? then Some(ShortcutAbort(l.abort.value)) else None) &&
      store.records == old(store.records)
    ensures saved == (if out.abort.None? then Some(store.records) else None)
  {
    match action {
      case UploadFiles(files) =>
        out := UploadAll(store, files, opts, replies, clocks, strftime);
      case DeleteUrls(urls) =>
        // yafu_delete posts a confirmation to each URL; nothing else changes.
        var posts: seq<string> := [];
        for i := 0 to |urls|
          invariant posts == urls[..i]
        {
          posts := posts + [urls[i]];
        }
        assert urls[..|urls|] == urls;
        out := Session([], [], posts, None);
      case ListStore =>
        var l := ListRecords(store.records, opts, now, strftime);
        out := Session([], l.lines, [], if l.abort.Some? then Some(ShortcutAbort(l.abort.value)) else None);
    }
    saved := if out.abort.None? then Some(store.records) else None;
  }

  /** The upload loop (yafu.py:231-238), appending each record to the store as it goes. */
  method UploadAll(store: RecordStore, files: seq<string>, opts: Options,
                   replies: seq<Reply>, clocks: seq<int>, strftime: (int, string) -> string)
    returns (out: Session)
    requires |files| == |replies| == |clocks|
    modifies store
    ensures out == UploadSession(files, replies, clocks, opts, strftime)
    ensures store.records == old(store.records) + out.records
  {
    out := Session([], [], [], None);
    for i := 0 to |files|
      invariant out == UploadSession(files[..i], replies[..i], clocks[..i], opts, strftime)
      invariant out.abort.None?
      invariant store.records == old(store.records) + out.records
    {
      assert files[..i + 1][..i] == files[..i] && replies[..i + 1][..i] == replies[..i] &&
             clocks[..i + 1][..i] == clocks[..i];
      var posts := out.posts + [UploadEndpoint(opts)];
      var rec := MakeRecord(files[i], opts, replies[i]);
      if rec.None? {
        out := Session(out.records, out.lines, posts, Some(ExpiryAbort));
        StoppedSessionStays(files, replies, clocks, opts, strftime, i + 1);
        return;
      }
      var x := new RecordExpander(rec.value, Env(clocks[i], opts.dateFormat, strftime));
      var s := Render(opts.format, x);
      if s.Failed? {
        // The exception ends the script: later files are neither posted nor recorded.
        out := Session(out.records, out.lines, posts, Some(ShortcutAbort(s.shortcut)));
        StoppedSessionStays(files, replies, clocks, opts, strftime, i + 1);
        return;
      }
      store.Append(rec.value);
      out := Session(out.records + [rec.value], out.lines + [s.text], posts, None);
    }
    assert files[..|files|] == files && replies[..|replies|] == replies && clocks[..|clocks|] == clocks;
  }

  /** Once the upload loop has stopped, the rest of the files change nothing. */
  lemma {:induction false} StoppedSessionStays(files: seq<string>, replies: seq<Reply>, clocks: seq<int>,
                                               opts: Options, strftime: (int, string) -> string, i: nat)
    requires |files| == |replies| == |clocks| && i <= |files|
    requires UploadSession(files[..i], replies[..i], clocks[..i], opts, strftime).abort.Some?
    ensures UploadSession(files, replies, clocks, opts, strftime) ==
            UploadSession(files[..i], replies[..i], clocks[..i], opts, strftime)
    decreases |files| - i
  {
    if i < |files| {
      var j := i + 1;
      assert files[..j][..i] == files[..i] && replies[..j][..i] == replies[..i] && clocks[..j][..i] == clocks[..i];
      StoppedSessionStays(files, replies, clocks, opts, strftime, j);
    } else {
      assert files[..i] == files && replies[..i] == replies && clocks[..i] == clocks;
    }
  }

  /**
   * The upload loop appends the records of a prefix of the files, one per
   * file, printing one line for each; it covers all files unless it stopped
   * early, and it posts to the upload endpoint once per file it reached.
   */
  lemma {:induction false} UploadSessionCounts(files: seq<string>, replies: seq<Reply>, clocks: seq<int>,
                                               opts: Options, strftime: (int, string) -> string)
    requires |files| == |replies| == |clocks|
    ensures var out := UploadSession(files, replies, clocks, opts, strftime);
      |out.records| == |out.lines| <= |files| &&
      (out.abort.None? ==> |out.records| == |files|) &&
      out.posts == seq(|out.records| + (if out.abort.Some? then 1 else 0), _ => UploadEndpoint(opts))
    decreases |files|
  {
    if files != [] {
      var k := |files| - 1;
      UploadSessionCounts(files[..k], replies[..k], clocks[..k], opts, strftime);
    }
  }

  /** The j-th appended record is the record built for the j-th file: argument order is kept. */
  lemma {:induction false} UploadSessionInOrder(files: seq<string>, replies: seq<Reply>, clocks: seq<int>,
                                                opts: Options, strftime: (int, string) -> string)
    requires |files| == |replies| == |clocks|
    ensures var out := UploadSession(files, replies, clocks, opts, strftime);
      forall j :: 0 <= j < |out.records| ==> j < |files| && NewRecord(files[j], opts, replies[j]) == Some(out.records[j])
    decreases |files|
  {
    if files != [] {
      var k := |files| - 1;
      var prev := UploadSession(files[..k], replies[..k], clocks[..k], opts, strftime);
      var out := UploadSession(files, replies, clocks, opts, strftime);
      UploadSessionCounts(files[..k], replies[..k], clocks[..k], opts, strftime);
      UploadSessionInOrder(files[..k], replies[..k], clocks[..k], opts, strftime);
      UploadStepAppends(prev, files[k], replies[k], clocks[k], opts, strftime);
      forall j | 0 <= j < |out.records|
        ensures j < |files| && NewRecord(files[j], opts, replies[j]) == Some(out.records[j])
      {
        if j < |prev.records| {
          assert files[..k][j] == files[j] && replies[..k][j] == replies[j];
        }
      }
    }
  }

  /** One step of the upload loop appends nothing, or the record built for its file. */
  lemma UploadStepAppends(acc: Session, file: string, reply: Reply, renderClock: int,
                          opts: Options, strftime: (int, string) -> string)
    ensures var next := UploadStep(acc, file, reply, renderClock, opts, strftime);
      next.records == acc.records ||
      (acc.abort.None? && NewRecord(file, opts, reply).Some? &&
       next.records == acc.records + [NewRecord(file, opts, reply).value])
  {
  }

  /** With an offered expiry code an upload run never stops on the expiry code. */
  lemma {:induction false} OfferedCodesNeverRaise(files: seq<string>, replies: seq<Reply>, clocks: seq<int>,
                                                  opts: Options, strftime: (int, string) -> string)
    requires |files| == |replies| == |clocks| && opts.expires in ExpiryChoices
    ensures UploadSession(files, replies, clocks, opts, strftime).abort != Some(ExpiryAbort)
    decreases |files|
  {
    if files != [] {
      var k := |files| - 1;
      OfferedCodesNeverRaise(files[..k], replies[..k], clocks[..k], opts, strftime);
      UploadRecordFields(files[k], opts, replies[k]);
    }
  }
}
