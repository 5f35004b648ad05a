/**
 * yafu_list (yafu.py:150-162): one pass over the store with a running
 * offset that skips all but a suffix, printing each record of that suffix
 * that is not expired (or every one under --show-expired) through the
 * output format.
 */
module Listing {
  import opened Common
  import opened Records
  import opened Expansion
  import opened Template

  /** What a listing printed, in order, and the shortcut error that cut it short, if any. */
  datatype Listed = Listed(lines: seq<string>, abort: Option<char>)

  /**
   * The index of the first record printed: the offset starts at
   * number - len(db) when number is truthy (not None, not 0) and at 0
   * otherwise, and record k is skipped while number - len(db) + k + 1 < 0.
   */
  function SelectionStart(n: nat, number: Option<int>): (start: nat)
    ensures start <= n
  {
    if number.None? || number.value == 0 then 0
    else if n - number.value - 1 < 0 then 0
    else if n - number.value - 1 > n then n
    else n - number.value - 1
  }

  /** The records the offset lets through. */
  function Selected(db: seq<Record>, number: Option<int>): seq<Record>
  {
    db[SelectionStart(|db|, number)..]
  }

  /** The resolver's environment for a listing run at time `now`. */
  function ListEnv(opts: Options, now: int, strftime: (int, string) -> string): Env
  {
    Env(now, opts.dateFormat, strftime)
  }

  /** `args.show_expired or not record['expired']`. */
  predicate Shown(r: Record, opts: Options, now: int)
  {
    opts.showExpired || !IsExpired(r, now)
  }

  /** `args.format.safe_substitute(record)` for one record. */
  function Rendering(r: Record, opts: Options, env: Env): Substitution
  {
    Substitute(opts.format, Resolver(r, env))
  }

  /** A selected record's rendering, None when it is not shown. */
  function Entry(r: Record, opts: Options, env: Env): Option<Substitution>
  {
    if Shown(r, opts, env.now) then Some(Rendering(r, opts, env)) else None
  }

  /** The effect of one selected record: nothing, a printed line, or the abort. */
  function Emit(acc: Listed, r: Record, opts: Options, env: Env): Listed
  {
    if acc.abort.Some? then acc
    else match Entry(r, opts, env)
      case None => acc
      case Some(Done(text)) => Listed(acc.lines + [text], None)
      case Some(Failed(c)) => Listed(acc.lines, Some(c))
  }

  /** Listing the records of `recs` in order. */
  function ListAll(recs: seq<Record>, opts: Options, env: Env): (l: Listed)
    decreases |recs|
  {
    if recs == [] then Listed([], None)
    else Emit(ListAll(recs[..|recs| - 1], opts, env), recs[|recs| - 1], opts, env)
  }

  /** What yafu_list prints for the store db. */
  function ListSpec(db: seq<Record>, opts: Options, env: Env): Listed
  {
    ListAll(Selected(db, opts.number), opts, env)
  }

  /**
   * yafu_list itself: the loop with the offset counter, a fresh expander
   * per record that is let through, and the expiry test before rendering
   * unless --show-expired. The store is not touched.
   */
  method ListRecords(db: seq<Record>, opts: Options, now: int, strftime: (int, string) -> string)
    returns (out: Listed)
    ensures out == ListSpec(db, opts, ListEnv(opts, now, strftime))
  {
    var env := ListEnv(opts, now, strftime);
    ghost var start := SelectionStart(|db|, opts.number);
    var offset := if opts.number.Some? && opts.number.value != 0 then opts.number.value - |db| else 0;
    ghost var base := offset;
    var lines: seq<string> := [];
    for i := 0 to |db|
      invariant offset == base + i
      invariant i <= start ==> lines == []
      invariant i >= start ==> Listed(lines, None) == ListAll(db[start..i], opts, env)
    {
      offset := offset + 1;
      OffsetLetsThrough(|db|, opts.number, i);
      if offset < 0 {
        continue;
      }
      if i == start {
        assert db[start..i] == [];
      }
      var next := ListSelected(db, start, i, lines, opts, env);
      if next.abort.Some? {
        return next;
      }
      lines := next.lines;
    }
    assert db[start..|db|] == db[start..];
    out := Listed(lines, None);
  }

  /**
   * The loop body for a selected record i: the listing so far extended by
   * record i, or the listing's final outcome when record i aborts it.
   */
  method ListSelected(db: seq<Record>, ghost start: nat, i: nat, lines: seq<string>, opts: Options, env: Env)
    returns (next: Listed)
    requires start <= i < |db| && Listed(lines, None) == ListAll(db[start..i], opts, env)
    ensures next.abort.None? ==> next == ListAll(db[start..i + 1], opts, env)
    ensures next.abort.Some? ==> next == ListAll(db[start..], opts, env)
  {
    var e := ListOne(db[i], opts, env);
    ListStep(db, start, i, lines, opts, env, e);
    if e.Some? && e.value.Failed? {
      next := Listed(lines, Some(e.value.shortcut));
    } else if e.Some? {
      next := Listed(lines + [e.value.text], None);
    } else {
      next := Listed(lines, None);
    }
  }

  /** After its increment for record i, the offset is non-negative exactly when i is selected. */
  lemma OffsetLetsThrough(n: nat, number: Option<int>, i: nat)
    requires i < n
    ensures (if number.Some? && number.value != 0 then number.value - n else 0) + i + 1 >= 0
            <==> i >= SelectionStart(n, number)
  {
  }

  /**
   * One selected record's effect on a listing that has not stopped: nothing
   * when it is not shown, its line when it renders, and otherwise the abort,
   * which is then the outcome of the whole listing.
   */
  lemma ListStep(db: seq<Record>, start: nat, i: nat, lines: seq<string>, opts: Options, env: Env,
                 e: Option<Substitution>)
    requires start <= i < |db| && Listed(lines, None) == ListAll(db[start..i], opts, env)
    requires e == Entry(db[i], opts, env)
    ensures e.None? ==> ListAll(db[start..i + 1], opts, env) == Listed(lines, None)
    ensures e.Some? && e.value.Done? ==> ListAll(db[start..i + 1], opts, env) == Listed(lines + [e.value.text], None)
    ensures e.Some? && e.value.Failed? ==> ListAll(db[start..], opts, env) == Listed(lines, Some(e.value.shortcut))
  {
    ListAllStep(db, start, i, opts, env);
    EmitEntry(lines, db[i], opts, env, e);
    if e.Some? && e.value.Failed? {
      AbortEndsListing(db, start, i + 1, opts, env);
    }
  }

  lemma ListAllStep(db: seq<Record>, lo: nat, i: nat, opts: Options, env: Env)
    requires lo <= i < |db|
    ensures ListAll(db[lo..i + 1], opts, env) == Emit(ListAll(db[lo..i], opts, env), db[i], opts, env)
  {
    assert db[lo..i + 1][..i - lo] == db[lo..i];
  }

  lemma EmitEntry(lines: seq<string>, r: Record, opts: Options, env: Env, e: Option<Substitution>)
    requires e == Entry(r, opts, env)
    ensures Emit(Listed(lines, None), r, opts, env) ==
      if e.None? then Listed(lines, None)
      else if e.value.Failed? then Listed(lines, Some(e.value.shortcut))
      else Listed(lines + [e.value.text], None)
  {
  }

  lemma AbortEndsListing(db: seq<Record>, lo: nat, j: nat, opts: Options, env: Env)
    requires lo <= j <= |db| && ListAll(db[lo..j], opts, env).abort.Some?
    ensures ListAll(db[lo..], opts, env) == ListAll(db[lo..j], opts, env)
  {
    AbortSticks(db[lo..j], db[j..], opts, env);
    assert db[lo..] == db[lo..j] + db[j..];
  }

  /**
   * The body of the loop for a record that is let through: a fresh
   * expander, the expiry test unless --show-expired (the `or` does not
   * evaluate it then), and the rendering.
   */
  method ListOne(r: Record, opts: Options, env: Env) returns (e: Option<Substitution>)
    ensures e == Entry(r, opts, env)
  {
    var x := new RecordExpander(r, env);
    var show := opts.showExpired;
    if !show {
      var expired := x.Get("expired");
      ExpiryStatus(r, env);
      show := !Truthy(expired.v);
    }
    if show {
      var s := Render(opts.format, x);
      e := Some(s);
    } else {
      e := None;
    }
  }

  /** Once a listing has aborted, later records change nothing. */
  lemma {:induction false} AbortSticks(done: seq<Record>, rest: seq<Record>, opts: Options, env: Env)
    requires ListAll(done, opts, env).abort.Some?
    ensures ListAll(done + rest, opts, env) == ListAll(done, opts, env)
    decreases |rest|
  {
    if rest == [] {
      assert done + rest == done;
    } else {
      var all := done + rest;
      assert all[..|all| - 1] == done + rest[..|rest| - 1];
      AbortSticks(done, rest[..|rest| - 1], opts, env);
    }
  }

  /**
   * The selection is a suffix of the store: all of it when number is None
   * or 0, otherwise its last max(0, min(len(db), number + 1)) records, one
   * more than "the last N" that --number is documented to list.
   */
  lemma SelectionIsSuffix(db: seq<Record>, number: Option<int>)
    ensures var k := |Selected(db, number)|;
      Selected(db, number) == db[|db| - k..] &&
      k == (if number.None? || number.value == 0 then |db|
            else if number.value + 1 < 0 then 0
            else if number.value + 1 > |db| then |db|
            else number.value + 1)
  {
  }

  /** Five records and --number 2 list three records, the last three. */
  lemma NumberTwoOfFive(db: seq<Record>)
    requires |db| == 5
    ensures Selected(db, Some(2)) == db[2..] && |Selected(db, Some(2))| == 3
  {
  }

  /** The records a listing of recs shows, in their order. */
  function ShownOf(recs: seq<Record>, opts: Options, now: int): seq<Record>
    decreases |recs|
  {
    if recs == [] then []
    else
      var prev := ShownOf(recs[..|recs| - 1], opts, now);
      if Shown(recs[|recs| - 1], opts, now) then prev + [recs[|recs| - 1]] else prev
  }

  /** A record is shown exactly when it is listed and --show-expired is set or it has not expired. */
  lemma {:induction false} ShownOfMembers(recs: seq<Record>, opts: Options, now: int, r: Record)
    ensures r in ShownOf(recs, opts, now) <==> r in recs && Shown(r, opts, now)
    decreases |recs|
  {
    if recs != [] {
      var init := recs[..|recs| - 1];
      ShownOfMembers(init, opts, now, r);
      assert recs == init + [recs[|recs| - 1]];
    }
  }

  /** Under --show-expired every selected record is shown. */
  lemma {:induction false} ShowExpiredShowsAll(recs: seq<Record>, opts: Options, now: int)
    requires opts.showExpired
    ensures ShownOf(recs, opts, now) == recs
    decreases |recs|
  {
    if recs != [] {
      ShowExpiredShowsAll(recs[..|recs| - 1], opts, now);
      assert recs == recs[..|recs| - 1] + [recs[|recs| - 1]];
    }
  }

  /** Every shown record renders without the shortcut error. */
  predicate AllRender(shown: seq<Record>, opts: Options, env: Env)
  {
    forall k :: 0 <= k < |shown| ==> Rendering(shown[k], opts, env).Done?
  }

  lemma AllRenderAppend(shown: seq<Record>, r: Record, opts: Options, env: Env)
    ensures AllRender(shown + [r], opts, env) <==> AllRender(shown, opts, env) && Rendering(r, opts, env).Done?
  {
    var all := shown + [r];
    assert all[|shown|] == r;
    assert forall k :: 0 <= k < |shown| ==> all[k] == shown[k];
  }

  /** A listing completes exactly when every shown record renders. */
  lemma {:induction false} ListAllCompletes(recs: seq<Record>, opts: Options, env: Env)
    ensures ListAll(recs, opts, env).abort.None? <==> AllRender(ShownOf(recs, opts, env.now), opts, env)
    decreases |recs|
  {
    if recs != [] {
      var init, last := recs[..|recs| - 1], recs[|recs| - 1];
      ListAllCompletes(init, opts, env);
      var prev := ListAll(init, opts, env);
      var prevShown := ShownOf(init, opts, env.now);
      if !Shown(last, opts, env.now) {
        assert ShownOf(recs, opts, env.now) == prevShown;
        assert ListAll(recs, opts, env) == prev;
      } else {
        var shown := prevShown + [last];
        assert ShownOf(recs, opts, env.now) == shown;
        AllRenderAppend(prevShown, last, opts, env);
        assert ListAll(recs, opts, env) == Emit(prev, last, opts, env);
      }
    }
  }

  /** A completed listing prints one line per shown record, in order, each the record's rendering. */
  lemma {:induction false} ListAllLines(recs: seq<Record>, opts: Options, env: Env)
    requires ListAll(recs, opts, env).abort.None?
    ensures var out := ListAll(recs, opts, env);
      var shown := ShownOf(recs, opts, env.now);
      |out.lines| == |shown| &&
      forall k :: 0 <= k < |shown| ==> Rendering(shown[k], opts, env) == Done(out.lines[k])
    decreases |recs|
  {
    if recs != [] {
      var init, last := recs[..|recs| - 1], recs[|recs| - 1];
      assert ListAll(init, opts, env).abort.None?;
      ListAllLines(init, opts, env);
    }
  }
}
