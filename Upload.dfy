/**
 * The record yafu_upload builds after posting a file (yafu.py:188-222):
 * the ids read from the service's reply, or the sentinel when they cannot
 * be read, and the expiry time computed from the <n><unit> expiry code.
 */
module Upload {
  import opened Common
  import opened Records

  /** The expiry codes --expires accepts (yafu.py:63-64). */
  const ExpiryChoices: set<string> := {"30m", "1h", "6h", "1d", "3d", "1w", "max"}

  /** Seconds per unit letter: minutes, hours, days, weeks (yafu.py:216); None for any other letter (a KeyError). */
  function UnitSeconds(u: char): (s: Option<nat>)
    ensures s.Some? <==> u in "mhdw"
    ensures s.Some? ==> s.value > 0
  {
    if u == 'm' then Some(60)
    else if u == 'h' then Some(3600)
    else if u == 'd' then Some(86400)
    else if u == 'w' then Some(604800)
    else None
  }

  /**
   * The length of the timedelta an expiry code stands for, in seconds:
   * int(code[:-1]) units of code[-1]. None where the code has no unit letter
   * or no decimal count, where Python raises.
   */
  function ExpiryDuration(code: string): Option<nat>
  {
    if code == [] then None
    else match (ParseNat(code[..|code| - 1]), UnitSeconds(code[|code| - 1]))
      case (Some(n), Some(u)) => Some(n * u)
      case _ => None
  }

  /**
   * What the service's reply yields and when: the id and delete id the
   * regexes extract (None when they find nothing), the integer clock read for
   * date_ts, and the clock read expire_ts is counted from.
   */
  datatype Reply = Reply(id: Option<string>, deleteId: Option<string>, dateClock: int, expiryClock: int)

  /** An extracted id, or the sentinel when extraction failed (yafu.py:188-200). */
  function OrNotAvailable(extracted: Option<string>): string
  {
    if extracted.Some? then extracted.value else NotAvailable
  }

  /**
   * The record yafu_upload returns for `file`, or None where parsing the
   * expiry code raises. It is first built with expire_ts 0, which is
   * replaced by the expiry clock plus the code's duration unless the code
   * is "max".
   */
  function NewRecord(file: string, opts: Options, reply: Reply): (rec: Option<Record>)
  {
    var base := Record(file, opts.baseUrl, OrNotAvailable(reply.id), OrNotAvailable(reply.deleteId),
                       opts.expires, opts.email, reply.dateClock, opts.hide, 0);
    if opts.expires == NeverExpires then Some(base)
    else match ExpiryDuration(opts.expires)
      case Some(d) => Some(base.(expireTs := reply.expiryClock + d))
      case None => None
  }

  /** yafu_upload's record construction: build the record, then set expire_ts in place. */
  method MakeRecord(file: string, opts: Options, reply: Reply) returns (rec: Option<Record>)
    ensures rec == NewRecord(file, opts, reply)
  {
    var id := if reply.id.Some? then reply.id.value else NotAvailable;
    var deleteId := if reply.deleteId.Some? then reply.deleteId.value else NotAvailable;
    var r := Record(file, opts.baseUrl, id, deleteId, opts.expires, opts.email, reply.dateClock, opts.hide, 0);
    if r.expires != NeverExpires {
      var code := r.expires;
      if code == [] {
        return None;
      }
      var n := ParseNat(code[..|code| - 1]);
      var unit := UnitSeconds(code[|code| - 1]);
      if n.None? || unit.None? {
        return None;
      }
      r := r.(expireTs := reply.expiryClock + n.value * unit.value);
    }
    rec := Some(r);
  }

  /** A code written as a count and a unit letter stands for count times the unit's seconds. */
  lemma ExpiryCodeRoundTrip(n: nat, u: char)
    requires u in "mhdw"
    ensures ExpiryDuration(NatToDecimal(n) + [u]) == Some(n * UnitSeconds(u).value)
  {
    var code := NatToDecimal(n) + [u];
    assert code[..|code| - 1] == NatToDecimal(n);
    DecimalRoundTrip(n);
  }

  /** The seconds each offered expiry code stands for. */
  lemma ExpiryTable()
    ensures ExpiryDuration("30m") == Some(1800)
    ensures ExpiryDuration("1h") == Some(3600)
    ensures ExpiryDuration("6h") == Some(21600)
    ensures ExpiryDuration("1d") == Some(86400)
    ensures ExpiryDuration("3d") == Some(259200)
    ensures ExpiryDuration("1w") == Some(604800)
  {
    assert "30m"[..2] == "30" && "30"[..1] == "3";
    assert "1h"[..1] == "1";
    assert "6h"[..1] == "6";
    assert "1d"[..1] == "1";
    assert "3d"[..1] == "3";
    assert "1w"[..1] == "1";
  }

  /** Every offered code but "max" has a positive duration. */
  lemma ChoicesHaveDurations(code: string)
    requires code in ExpiryChoices && code != NeverExpires
    ensures ExpiryDuration(code).Some? && ExpiryDuration(code).value > 0
  {
    ExpiryTable();
  }

  /**
   * For an offered expiry code the record is built, copies the run's
   * options and the date clock, and holds the extracted ids or the
   * sentinel; expire_ts is 0 for "max" and otherwise the expiry clock plus
   * the code's duration.
   */
  lemma UploadRecordFields(file: string, opts: Options, reply: Reply)
    requires opts.expires in ExpiryChoices
    ensures NewRecord(file, opts, reply).Some?
    ensures var r := NewRecord(file, opts, reply).value;
      r.file == file && r.baseUrl == opts.baseUrl && r.expires == opts.expires &&
      r.email == opts.email && r.hide == opts.hide && r.dateTs == reply.dateClock &&
      (reply.id.Some? ==> r.id == reply.id.value) && (reply.id.None? ==> r.id == NotAvailable) &&
      (reply.deleteId.Some? ==> r.deleteId == reply.deleteId.value) &&
      (reply.deleteId.None? ==> r.deleteId == NotAvailable) &&
      (r.expires == NeverExpires ==> r.expireTs == 0) &&
      (r.expires != NeverExpires ==> r.expireTs == reply.expiryClock + ExpiryDuration(r.expires).value)
  {
    if opts.expires != NeverExpires {
      ChoicesHaveDurations(opts.expires);
    }
  }

  /**
   * With a clock that has not gone below the epoch, a record built for an
   * offered code never expires exactly when its code is "max".
   */
  lemma UploadRecordWellFormed(file: string, opts: Options, reply: Reply)
    requires opts.expires in ExpiryChoices && reply.expiryClock >= 0
    ensures NewRecord(file, opts, reply).Some? && WellFormed(NewRecord(file, opts, reply).value)
  {
    UploadRecordFields(file, opts, reply);
    if opts.expires != NeverExpires {
      ChoicesHaveDurations(opts.expires);
    }
  }

  /** A code without a unit letter, or without a decimal count before it, makes yafu_upload raise. */
  lemma MalformedCodesRaise(opts: Options, file: string, reply: Reply)
    requires opts.expires != NeverExpires
    requires opts.expires == [] || opts.expires[|opts.expires| - 1] !in "mhdw" ||
             ParseNat(opts.expires[..|opts.expires| - 1]).None?
    ensures NewRecord(file, opts, reply).None?
  {
  }
}
