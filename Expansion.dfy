/**
 * The field resolver (RecordExpander, yafu.py:86-147): answers a field name
 * for one record, from the record's own keys or from a derivation rule, with
 * single-character shortcuts and a memo of derived values.
 */
module Expansion {
  import opened Common
  import opened Records
  import UrlText

  /**
   * What the resolver reads besides the record: the time it compares expiry
   * against, the configured date format, and the date formatter
   * (datetime.fromtimestamp(ts).strftime(fmt), which depends on the time zone and locale).
   */
  datatype Env = Env(now: int, dateFormat: string, strftime: (int, string) -> string)

  /** RECORD_SHORTCUTS (yafu.py:36-41). Note 'h' names "hidden", which no record holds. */
  const Shortcuts: map<char, string> := map[
    'b' := "basename", 'f' := "file", 'h' := "hidden",
    'i' := "info_url", 'd' := "deletion_url", 'u' := "direct_url",
    'D' := "date", 'e' := "expire_date", 'x' := "expired",
    'E' := "expires"]

  /** Every name the resolver answers: the record's nine keys, then the ten names getVar derives. */
  datatype Field =
    | File | BaseUrl | Id | DeleteId | Expires | Email | DateTs | Hide | ExpireTs
    | Expired | ExpiredStr | Type | Date | ExpireDate
    | DirectUrl | InfoUrl | DeletionUrl | Basename | BasenameEscaped
  {
    /** A key of the record dict, returned as it is stored. */
    predicate IsStored() {
      File? || BaseUrl? || Id? || DeleteId? || Expires? || Email? || DateTs? || Hide? || ExpireTs?
    }
  }

  /** The name a template or getVar uses for a field. */
  function NameOf(f: Field): (name: string)
    ensures |name| > 1
  {
    match f
    case File => "file"
    case BaseUrl => "base_url"
    case Id => "id"
    case DeleteId => "delete_id"
    case Expires => "expires"
    case Email => "email"
    case DateTs => "date_ts"
    case Hide => "hide"
    case ExpireTs => "expire_ts"
    case Expired => "expired"
    case ExpiredStr => "expired_str"
    case Type => "type"
    case Date => "date"
    case ExpireDate => "expire_date"
    case DirectUrl => "direct_url"
    case InfoUrl => "info_url"
    case DeletionUrl => "deletion_url"
    case Basename => "basename"
    case BasenameEscaped => "basename_escaped"
  }

  /** The field a name stands for; None for a name that is neither a record key nor derivable. */
  function FieldOf(name: string): (f: Option<Field>)
    ensures f.Some? ==> NameOf(f.value) == name
  {
    // Grouped by length, so that a name is compared with at most four literals.
    match |name|
    case 2 => if name == "id" then Some(Id) else None
    case 4 =>
      if name == "file" then Some(File)
      else if name == "hide" then Some(Hide)
      else if name == "type" then Some(Type)
      else if name == "date" then Some(Date)
      else None
    case 5 => if name == "email" then Some(Email) else None
    case 7 =>
      if name == "expires" then Some(Expires)
      else if name == "date_ts" then Some(DateTs)
      else if name == "expired" then Some(Expired)
      else None
    case 8 =>
      if name == "base_url" then Some(BaseUrl)
      else if name == "info_url" then Some(InfoUrl)
      else if name == "basename" then Some(Basename)
      else None
    case 9 =>
      if name == "delete_id" then Some(DeleteId)
      else if name == "expire_ts" then Some(ExpireTs)
      else None
    case 10 => if name == "direct_url" then Some(DirectUrl) else None
    case 11 =>
      if name == "expired_str" then Some(ExpiredStr)
      else if name == "expire_date" then Some(ExpireDate)
      else None
    case 12 => if name == "deletion_url" then Some(DeletionUrl) else None
    case 16 => if name == "basename_escaped" then Some(BasenameEscaped) else None
    case _ => None
  }

  /** Names and fields are in one-to-one correspondence. */
  lemma FieldNamed(f: Field)
    ensures FieldOf(NameOf(f)) == Some(f)
  {
    match f
    case File =>
    case BaseUrl =>
    case Id =>
    case DeleteId =>
    case Expires =>
    case Email =>
    case DateTs =>
    case Hide =>
    case ExpireTs =>
    case Expired =>
    case ExpiredStr =>
    case Type =>
    case Date =>
    case ExpireDate =>
    case DirectUrl =>
    case InfoUrl =>
    case DeletionUrl =>
    case Basename =>
    case BasenameEscaped =>
  }

  /**
   * The outcome of `expander[name]`: a value, the KeyError raised for an
   * unknown field (which safe_substitute tolerates), or the plain Exception
   * raised for an unknown shortcut (which it does not).
   */
  datatype Lookup = Found(v: Value) | NotFound | ShortcutError(c: char)

  /** A record has expired when its code is not "max" and the time is strictly past its expiry. */
  predicate IsExpired(r: Record, now: int)
  {
    r.expires != NeverExpires && now > r.expireTs
  }

  /** The escaped basename of the record's file, the last segment of its URLs. */
  function EscapedName(r: Record): string
  {
    UrlText.QuotePlus(UrlText.Basename(r.file))
  }

  /** `record[key]` for a key of the record dict. */
  function Stored(r: Record, f: Field): Value
    requires f.IsStored()
  {
    match f
    case File => Str(r.file)
    case BaseUrl => Str(r.baseUrl)
    case Id => Str(r.id)
    case DeleteId => Str(r.deleteId)
    case Expires => Str(r.expires)
    case Email => if r.email.Some? then Str(r.email.value) else NoneValue
    case DateTs => Int(r.dateTs)
    case Hide => Bool(r.hide)
    case ExpireTs => Int(r.expireTs)
  }

  /** getVar (yafu.py:109-145) for a derived field, with its nested lookups resolved. */
  function Derive(r: Record, env: Env, f: Field): (v: Value)
    requires !f.IsStored()
  {
    match f
    case Expired => Bool(IsExpired(r, env.now))
    case ExpiredStr => Str(if IsExpired(r, env.now) then "EXPIRED " else "")
    case Type => Str(if r.hide then "Private" else "Public")
    case Date => Str(env.strftime(r.dateTs, env.dateFormat))
    case ExpireDate => Str(if r.expireTs == 0 then "NEVER" else env.strftime(r.expireTs, env.dateFormat))
    case DirectUrl => Str(r.baseUrl + "/" + r.id + "/" + EscapedName(r))
    case InfoUrl => Str(r.baseUrl + "/info/" + r.id + "/" + EscapedName(r))
    case DeletionUrl => Str(r.baseUrl + "/delete/" + r.deleteId)
    case Basename => Str(UrlText.Basename(r.file))
    case BasenameEscaped => Str(EscapedName(r))
  }

  /** getVar on a name: the derived value, or None for its closing `raise KeyError` (yafu.py:147). */
  function GetVar(r: Record, env: Env, name: string): Option<Value>
  {
    match FieldOf(name)
    case Some(f) => if f.IsStored() then None else Some(Derive(r, env, f))
    case None => None
  }

  /** The name a lookup is about once a shortcut has been expanded. */
  function Target(name: string): string
  {
    if |name| == 1 && name[0] in Shortcuts then Shortcuts[name[0]] else name
  }

  /** `expander[name]` (yafu.py:93-107): shortcut, then the record's own keys, then getVar. */
  function Resolve(r: Record, env: Env, name: string): (l: Lookup)
  {
    if |name| == 1 && name[0] !in Shortcuts then ShortcutError(name[0])
    else
      var key := FieldOf(Target(name));
      if key.Some? && key.value.IsStored() then Found(Stored(r, key.value))
      else
        match GetVar(r, env, Target(name))
        case Some(v) => Found(v)
        case None => NotFound
  }

  /** The resolver seen as the mapping the template renderer reads. */
  function Resolver(r: Record, env: Env): string -> Lookup
  {
    name => Resolve(r, env, name)
  }

  /** The derived fields getVar(f) looks up through the resolver, transitively. */
  function Deps(f: Field): set<Field>
  {
    match f
    case ExpiredStr => {Expired}
    case BasenameEscaped => {Basename}
    case DirectUrl => {BasenameEscaped, Basename}
    case InfoUrl => {BasenameEscaped, Basename}
    case _ => {}
  }

  /** The derived fields that computing `f` memoises: itself and its dependencies. */
  function Closure(f: Field): set<Field>
  {
    if f.IsStored() then {} else {f} + Deps(f)
  }

  /** The derived fields a lookup of `name` memoises, starting from an empty memo. */
  function Trail(name: string): set<Field>
  {
    if |name| == 1 && name[0] !in Shortcuts then {}
    else
      match FieldOf(Target(name))
      case None => {}
      case Some(f) => Closure(f)
  }

  /** The depth of getVar's nested lookups, which bounds the recursion between the resolver's methods. */
  function FieldRank(f: Field): nat
  {
    match f
    case DirectUrl => 3
    case InfoUrl => 3
    case BasenameEscaped => 2
    case ExpiredStr => 1
    case DeletionUrl => 1
    case _ => 0
  }

  /** The depth of a lookup by name. */
  function Rank(name: string): nat
  {
    match FieldOf(Target(name))
    case Some(f) => FieldRank(f)
    case None => 0
  }

  /** A single-character name is resolved exactly like the full name it abbreviates: `$b` is `$basename`. */
  lemma ShortcutResolvesLikeFullName(r: Record, env: Env, c: char)
    requires c in Shortcuts
    ensures |Shortcuts[c]| > 1
    ensures Resolve(r, env, [c]) == Resolve(r, env, Shortcuts[c])
  {
  }

  /** An unmapped single character raises the shortcut error, not a KeyError. */
  lemma UnknownShortcutRaises(r: Record, env: Env, c: char)
    requires c !in Shortcuts
    ensures Resolve(r, env, [c]) == ShortcutError(c)
  {
  }

  /** 'h' names "hidden", which is neither a record key nor derivable: its lookup is a KeyError. */
  lemma HiddenShortcutIsKeyError(r: Record, env: Env)
    ensures Resolve(r, env, "h") == NotFound
    ensures Trail("h") == {}
  {
    assert Target("h") == "hidden";
  }

  /** A record key is returned as stored, and never memoised. */
  lemma StoredKeysWin(r: Record, env: Env, f: Field)
    requires f.IsStored()
    ensures Resolve(r, env, NameOf(f)) == Found(Stored(r, f))
    ensures GetVar(r, env, NameOf(f)) == None
    ensures Trail(NameOf(f)) == {}
  {
    FieldNamed(f);
  }

  /** A multi-character name that names no field is a KeyError and memoises nothing. */
  lemma UnknownNameIsKeyError(r: Record, env: Env, name: string)
    requires |name| > 1 && forall f :: NameOf(f) != name
    ensures Resolve(r, env, name) == NotFound
    ensures Trail(name) == {}
  {
  }

  /** A derived name is answered by getVar, and memoised together with what it was derived from. */
  lemma DerivedNamesComputed(r: Record, env: Env, f: Field)
    requires !f.IsStored()
    ensures Resolve(r, env, NameOf(f)) == Found(Derive(r, env, f))
    ensures GetVar(r, env, NameOf(f)) == Some(Derive(r, env, f))
    ensures f in Trail(NameOf(f))
  {
    FieldNamed(f);
  }

  /**
   * Expiry status (yafu.py:111-116): never expired under "max", whatever the
   * time; otherwise expired exactly when the time is strictly past expire_ts,
   * so the boundary instant is not expired; expired_str follows it; `$x` is `$expired`.
   */
  lemma ExpiryStatus(r: Record, env: Env)
    ensures Resolve(r, env, "expired") == Found(Bool(IsExpired(r, env.now)))
    ensures r.expires == NeverExpires ==> Resolve(r, env, "expired") == Found(Bool(false))
    ensures r.expires != NeverExpires ==>
      (Resolve(r, env, "expired") == Found(Bool(true)) <==> env.now > r.expireTs)
    ensures env.now == r.expireTs ==> Resolve(r, env, "expired") == Found(Bool(false))
    ensures Resolve(r, env, "expired_str") == Found(Str("EXPIRED ")) <==> IsExpired(r, env.now)
    ensures Resolve(r, env, "expired_str") == Found(Str("")) <==> !IsExpired(r, env.now)
    ensures Resolve(r, env, "x") == Resolve(r, env, "expired")
  {
    FieldNamed(Expired);
    FieldNamed(ExpiredStr);
    assert Target("x") == "expired";
  }

  /** type is 'Private' exactly for hidden uploads, 'Public' otherwise (yafu.py:118-119). */
  lemma TypeField(r: Record, env: Env)
    ensures Resolve(r, env, "type") == Found(Str("Private")) <==> r.hide
    ensures Resolve(r, env, "type") == Found(Str("Public")) <==> !r.hide
  {
    FieldNamed(Type);
  }

  /**
   * date formats date_ts; expire_date is 'NEVER' for expire_ts 0 and the
   * formatted expire_ts otherwise (yafu.py:121-128).
   */
  lemma DateFields(r: Record, env: Env)
    ensures Resolve(r, env, "date") == Found(Str(env.strftime(r.dateTs, env.dateFormat)))
    ensures r.expireTs == 0 ==> Resolve(r, env, "expire_date") == Found(Str("NEVER"))
    ensures r.expireTs != 0 ==>
      Resolve(r, env, "expire_date") == Found(Str(env.strftime(r.expireTs, env.dateFormat)))
  {
    FieldNamed(Date);
    FieldNamed(ExpireDate);
  }

  /**
   * basename is the basename of the stored file path and basename_escaped
   * its quote_plus escape (yafu.py:141-145).
   */
  lemma BasenameFields(r: Record, env: Env)
    ensures Resolve(r, env, "basename") == Found(Str(UrlText.Basename(r.file)))
    ensures Resolve(r, env, "basename_escaped") == Found(Str(EscapedName(r)))
  {
    FieldNamed(Basename);
    FieldNamed(BasenameEscaped);
  }

  /** Neither the basename nor its escape holds a '/', so each is a single URL path segment. */
  lemma {:induction false} NamesAreSegments(r: Record)
    ensures '/' !in UrlText.Basename(r.file) && '/' !in EscapedName(r)
  {
    UrlText.BasenameIsLastSegment(r.file);
    UrlText.QuotedAlphabet(UrlText.Basename(r.file));
  }

  /**
   * The URLs are built from the record's own stored base_url, id and
   * delete_id and the escaped basename (yafu.py:130-139), not from the run's
   * configured base URL.
   */
  lemma UrlFields(r: Record, env: Env)
    ensures Resolve(r, env, "direct_url") == Found(Str(r.baseUrl + "/" + r.id + "/" + EscapedName(r)))
    ensures Resolve(r, env, "info_url") == Found(Str(r.baseUrl + "/info/" + r.id + "/" + EscapedName(r)))
    ensures Resolve(r, env, "deletion_url") == Found(Str(r.baseUrl + "/delete/" + r.deleteId))
  {
    FieldNamed(DirectUrl);
    FieldNamed(InfoUrl);
    FieldNamed(DeletionUrl);
  }

  /** The last path segment of the direct and info URLs is the escaped basename, and of the deletion URL the delete id. */
  lemma UrlLastSegments(r: Record, env: Env)
    ensures UrlText.Basename(Show(Resolve(r, env, "direct_url").v)) == EscapedName(r)
    ensures UrlText.Basename(Show(Resolve(r, env, "info_url").v)) == EscapedName(r)
    ensures '/' !in r.deleteId ==> UrlText.Basename(Show(Resolve(r, env, "deletion_url").v)) == r.deleteId
  {
    UrlFields(r, env);
    NamesAreSegments(r);
    UrlText.BasenameAfterSlash(r.baseUrl + "/" + r.id, EscapedName(r));
    UrlText.BasenameAfterSlash(r.baseUrl + "/info/" + r.id, EscapedName(r));
    if '/' !in r.deleteId {
      assert r.baseUrl + "/delete/" + r.deleteId == (r.baseUrl + "/delete") + "/" + r.deleteId;
      UrlText.BasenameAfterSlash(r.baseUrl + "/delete", r.deleteId);
    }
  }

  /**
   * A file whose name is made of unreserved ASCII characters appears in its
   * URLs as it is: /tmp/a.txt uploaded to http://x/y with id 42 has the
   * direct URL http://x/y/42/a.txt.
   */
  lemma UnreservedNameInUrl(r: Record, env: Env, dir: string, name: string)
    requires r.file == dir + "/" + name
    requires forall i :: 0 <= i < |name| ==> name[i] as int < 128 && UrlText.IsUnreserved(name[i] as int as byte)
    ensures Resolve(r, env, "direct_url") == Found(Str(r.baseUrl + "/" + r.id + "/" + name))
    ensures Resolve(r, env, "info_url") == Found(Str(r.baseUrl + "/info/" + r.id + "/" + name))
  {
    assert '/' !in name by {
      forall i | 0 <= i < |name| ensures name[i] != '/' {
        assert UrlText.IsUnreserved(name[i] as int as byte);
      }
    }
    UrlText.BasenameAfterSlash(dir, name);
    UrlText.QuotePlusKeepsUnreserved(name);
    UrlFields(r, env);
  }

  /** Two memos of derived values for one record are equal as soon as they hold the same fields. */
  lemma MemoDeterminedByKeys(a: map<Field, Value>, b: map<Field, Value>, r: Record, env: Env)
    requires forall f :: f in a ==> !f.IsStored() && a[f] == Derive(r, env, f)
    requires forall f :: f in b ==> !f.IsStored() && b[f] == Derive(r, env, f)
    requires a.Keys == b.Keys
    ensures a == b
  {
  }

  /**
   * RecordExpander: one record, the run's environment, and the memo `cache`
   * of derived values. The source keys the memo by name; only derived names
   * ever enter it, and those correspond one-to-one to fields, so here it is
   * keyed by field.
   */
  class RecordExpander {
    const record: Record
    const env: Env
    var cache: map<Field, Value>

    /**
     * The memo holds only derived fields, each with its derived value and
     * together with everything it was derived from.
     */
    ghost predicate Valid()
      reads this
    {
      forall f :: f in cache ==> !f.IsStored() && cache[f] == Derive(record, env, f) && Closure(f) <= cache.Keys
    }

    constructor (record: Record, env: Env)
      ensures Valid()
      ensures this.record == record && this.env == env && cache == map[]
    {
      this.record := record;
      this.env := env;
      cache := map[];
    }

    /**
     * `self[name]` (yafu.py:93-107): the answer is Resolve's; a record key or
     * an error leaves the memo alone; a derived field already memoised is not
     * recomputed; one not yet memoised is computed once and memoised with
     * what it was derived from.
     */
    method Get(name: string) returns (r: Lookup)
      requires Valid()
      modifies this
      ensures Valid()
      ensures r == Resolve(record, env, name)
      ensures cache.Keys == old(cache.Keys) + Trail(name)
      ensures Trail(name) <= old(cache.Keys) ==> cache == old(cache)
      decreases Rank(name), 2
    {
      var full := name;
      if |name| == 1 {
        if name[0] !in Shortcuts {
          return ShortcutError(name[0]);
        }
        full := Shortcuts[name[0]];
      }
      var f := FieldOf(full);
      if f.None? {
        // getVar runs through all its rules and raises KeyError; nothing is memoised.
        return NotFound;
      }
      if f.value.IsStored() {
        return Found(Stored(record, f.value));
      }
      if f.value !in cache {
        var v := ComputeVar(f.value);
        cache := cache[f.value := v];
      }
      r := Found(cache[f.value]);
    }

    /**
     * getVar (yafu.py:109-145) on a derived field, looking nested fields up
     * through the resolver. It runs only on a memo miss, and Get memoises what
     * it returns, so each derived field is computed at most once per expander.
     */
    method ComputeVar(f: Field) returns (v: Value)
      requires Valid()
      requires !f.IsStored() && f !in cache
      modifies this
      ensures Valid()
      ensures v == Derive(record, env, f)
      ensures cache.Keys == old(cache.Keys) + Deps(f)
      decreases FieldRank(f), 1
    {
      match f {
        case Expired =>
          v := Bool(record.expires != NeverExpires && env.now > record.expireTs);
        case ExpiredStr =>
          v := ExpiredText();
        case Type =>
          v := Str(if record.hide then "Private" else "Public");
        case Date =>
          v := Str(env.strftime(record.dateTs, env.dateFormat));
        case ExpireDate =>
          if record.expireTs == 0 {
            v := Str("NEVER");
          } else {
            v := Str(env.strftime(record.expireTs, env.dateFormat));
          }
        case DirectUrl =>
          v := FileUrl(DirectUrl, "/");
        case InfoUrl =>
          v := FileUrl(InfoUrl, "/info/");
        case DeletionUrl =>
          v := DeletionLink();
        case Basename =>
          v := Str(UrlText.Basename(record.file));
        case BasenameEscaped =>
          v := EscapedBasename();
      }
    }

    /** expired_str: 'EXPIRED ' if self['expired'] else '' (yafu.py:115-116). */
    method ExpiredText() returns (v: Value)
      requires Valid() && ExpiredStr !in cache
      modifies this
      ensures Valid()
      ensures v == Derive(record, env, ExpiredStr)
      ensures cache.Keys == old(cache.Keys) + Deps(ExpiredStr)
      decreases FieldRank(ExpiredStr), 0
    {
      var x := GetField(Expired);
      v := Str(if Truthy(x) then "EXPIRED " else "");
    }

    /** direct_url and info_url: base_url, the infix, id, '/', basename_escaped (yafu.py:130-136). */
    method FileUrl(f: Field, infix: string) returns (v: Value)
      requires Valid() && f !in cache
      requires (f == DirectUrl && infix == "/") || (f == InfoUrl && infix == "/info/")
      modifies this
      ensures Valid()
      ensures v == Derive(record, env, f)
      ensures cache.Keys == old(cache.Keys) + Deps(f)
      decreases FieldRank(f), 0
    {
      var base := GetField(BaseUrl);
      var id := GetField(Id);
      assert cache == old(cache);
      var escaped := GetField(BasenameEscaped);
      assert Closure(BasenameEscaped) == Deps(f);
      assert Show(base) == record.baseUrl && Show(id) == record.id && Show(escaped) == EscapedName(record);
      v := Str(record.baseUrl + infix + record.id + "/" + EscapedName(record));
      assert f == DirectUrl ==> Derive(record, env, f) == Str(record.baseUrl + "/" + record.id + "/" + EscapedName(record));
    }

    /** deletion_url: base_url + '/delete/' + delete_id (yafu.py:138-139). */
    method DeletionLink() returns (v: Value)
      requires Valid() && DeletionUrl !in cache
      modifies this
      ensures Valid()
      ensures v == Derive(record, env, DeletionUrl)
      ensures cache == old(cache)
      decreases FieldRank(DeletionUrl), 0
    {
      var base := GetField(BaseUrl);
      var deleteId := GetField(DeleteId);
      v := Str(Show(base) + "/delete/" + Show(deleteId));
    }

    /** basename_escaped: quote_plus of self['basename'] (yafu.py:144-145). */
    method EscapedBasename() returns (v: Value)
      requires Valid() && BasenameEscaped !in cache
      modifies this
      ensures Valid()
      ensures v == Derive(record, env, BasenameEscaped)
      ensures cache.Keys == old(cache.Keys) + Deps(BasenameEscaped)
      decreases FieldRank(BasenameEscaped), 0
    {
      var b := GetField(Basename);
      v := Str(UrlText.QuotePlus(Show(b)));
    }

    /** `self['<name of f>']` inside getVar: a field's lookup always succeeds. */
    method GetField(f: Field) returns (x: Value)
      requires Valid()
      modifies this
      ensures Valid()
      ensures x == (if f.IsStored() then Stored(record, f) else Derive(record, env, f))
      ensures f.IsStored() ==> cache == old(cache)
      ensures cache.Keys == old(cache.Keys) + Closure(f)
      decreases FieldRank(f), 3
    {
      FieldNamed(f);
      var r := Get(NameOf(f));
      x := r.v;
    }
  }
}
