/**
 * string.Template.safe_substitute, the renderer both output paths use
 * (yafu.py:162 and 236), applied to a RecordExpander.
 *
 * A '$' starts a placeholder: "$$" is an escaped dollar, "$name" and
 * "${name}" look `name` up, where a name is an ASCII letter or '_' followed
 * by ASCII letters, digits and '_'; any other '$' is left alone. A lookup
 * that raises KeyError leaves its placeholder as written; any other error
 * ends the rendering.
 */
module Template {
  import opened Common
  import opened Records
  import opened Expansion

  /** The result of rendering: the text, or the unknown shortcut whose error ended it. */
  datatype Substitution = Done(text: string) | Failed(shortcut: char)

  /** A character that may start a name (the idpattern [_a-z] under IGNORECASE and ASCII). */
  predicate IsIdStart(c: char)
  {
    c == '_' || ('a' <= c <= 'z') || ('A' <= c <= 'Z')
  }

  /** A character that may continue a name. */
  predicate IsIdChar(c: char)
  {
    IsIdStart(c) || IsDigit(c)
  }

  /** A complete placeholder name. */
  predicate IsName(n: string)
  {
    |n| > 0 && IsIdStart(n[0]) && forall i :: 0 <= i < |n| ==> IsIdChar(n[i])
  }

  /** The length of the longest prefix of s made of name characters. */
  function IdentLength(s: string): (n: nat)
    ensures n <= |s|
    ensures forall i :: 0 <= i < n ==> IsIdChar(s[i])
    ensures n < |s| ==> !IsIdChar(s[n])
    decreases |s|
  {
    if s == [] || !IsIdChar(s[0]) then 0 else 1 + IdentLength(s[1..])
  }

  /** One step of the scan: a plain character, or one alternative of the placeholder pattern. */
  datatype Token = Literal(c: char) | Escape | Named(name: string) | Braced(name: string) | Lone

  /** The text a token was read from. */
  function Raw(tk: Token): string
  {
    match tk
    case Literal(c) => [c]
    case Escape => "$$"
    case Named(n) => "$" + n
    case Braced(n) => "${" + n + "}"
    case Lone => "$"
  }

  /** The token at the head of a non-empty text; its raw text is a non-empty prefix of the text. */
  function NextToken(t: string): (tk: Token)
    requires t != []
    ensures 0 < |Raw(tk)| <= |t| && Raw(tk) == t[..|Raw(tk)|]
    ensures tk.Named? || tk.Braced? ==> IsName(tk.name)
  {
    if t[0] != '$' then Literal(t[0])
    else if |t| == 1 then Lone
    else if t[1] == '$' then Escape
    else if IsIdStart(t[1]) then
      var n := IdentLength(t[1..]);
      assert t[..1 + n] == "$" + t[1..1 + n];
      Named(t[1..1 + n])
    else if t[1] == '{' && |t| > 2 && IsIdStart(t[2]) then
      var n := IdentLength(t[2..]);
      if 2 + n < |t| && t[2 + n] == '}' then
        assert t[..3 + n] == "${" + t[2..2 + n] + "}";
        Braced(t[2..2 + n])
      else Lone
    else Lone
  }

  /** What a token becomes: the value's str(), the placeholder itself on KeyError, or the abort. */
  function Replacement(tk: Token, m: string -> Lookup): Substitution
  {
    match tk
    case Literal(c) => Done([c])
    case Escape => Done("$")
    case Lone => Done("$")
    case Named(n) =>
      (match m(n)
       case Found(v) => Done(Show(v))
       case NotFound => Done(Raw(tk))
       case ShortcutError(c) => Failed(c))
    case Braced(n) =>
      (match m(n)
       case Found(v) => Done(Show(v))
       case NotFound => Done(Raw(tk))
       case ShortcutError(c) => Failed(c))
  }

  /** Joining a piece to what follows it; the leftmost error wins, since the scan stops there. */
  function Then(piece: Substitution, rest: Substitution): Substitution
  {
    if piece.Failed? then piece
    else if rest.Failed? then rest
    else Done(piece.text + rest.text)
  }

  /** safe_substitute of the template t against the lookup m. */
  function Substitute(t: string, m: string -> Lookup): (s: Substitution)
    decreases |t|
  {
    if t == [] then Done([])
    else
      var tk := NextToken(t);
      Then(Replacement(tk, m), Substitute(t[|Raw(tk)|..], m))
  }

  lemma ThenAssociative(a: Substitution, b: Substitution, c: Substitution)
    ensures Then(a, Then(b, c)) == Then(Then(a, b), c)
  {
  }

  /** The derived fields looking up a token's name memoises, from an empty memo. */
  function TokenTrail(tk: Token): set<Field>
  {
    if tk.Named? || tk.Braced? then Trail(tk.name) else {}
  }

  /**
   * The derived fields rendering t memoises: those of every placeholder the
   * scan looks up, up to and including the one whose lookup aborts.
   */
  function ScanTrail(t: string, m: string -> Lookup): set<Field>
    decreases |t|
  {
    if t == [] then {}
    else
      var tk := NextToken(t);
      if Replacement(tk, m).Failed? then TokenTrail(tk)
      else TokenTrail(tk) + ScanTrail(t[|Raw(tk)|..], m)
  }

  /**
   * `template.safe_substitute(expander)`: scans the template once, looking
   * each placeholder up through the expander, and returns what Substitute
   * says for the expander's record and environment. The memo gains exactly
   * the fields the scan's lookups derive, and nothing when those were all
   * memoised already: no field is computed twice per expander.
   */
  method Render(t: string, e: RecordExpander) returns (res: Substitution)
    requires e.Valid()
    modifies e
    ensures e.Valid()
    ensures res == Substitute(t, Resolver(e.record, e.env))
    ensures e.cache.Keys == old(e.cache.Keys) + ScanTrail(t, Resolver(e.record, e.env))
    ensures ScanTrail(t, Resolver(e.record, e.env)) <= old(e.cache.Keys) ==> e.cache == old(e.cache)
  {
    ghost var m := Resolver(e.record, e.env);
    ghost var whole := Substitute(t, m);
    ghost var total := ScanTrail(t, m);
    var out := "";
    var i := 0;
    assert t[i..] == t;
    while i < |t|
      invariant 0 <= i <= |t|
      invariant e.Valid()
      invariant whole == Then(Done(out), Substitute(t[i..], m))
      invariant e.cache.Keys + ScanTrail(t[i..], m) == old(e.cache.Keys) + total
      decreases |t| - i
    {
      var piece, next := Scan(t, i, e, out, whole, old(e.cache.Keys), total);
      if piece.Failed? {
        MemoUnchanged(old(e.cache), e);
        return piece;
      }
      out := out + piece.text;
      i := next;
    }
    assert t[i..] == [];
    MemoUnchanged(old(e.cache), e);
    res := Done(out);
  }

  /**
   * One match of the placeholder pattern at position i of t, replaced
   * through the expander: the piece it becomes and where the scan resumes.
   * The rendering so far (`out`) and the memo keys stay in step with the
   * rendering (`whole`) and memoised fields (`keys0` + `total`) of the whole
   * template.
   */
  method Scan(t: string, i: nat, e: RecordExpander, ghost out: string, ghost whole: Substitution,
              ghost keys0: set<Field>, ghost total: set<Field>) returns (piece: Substitution, next: nat)
    requires i < |t| && e.Valid()
    requires whole == Then(Done(out), Substitute(t[i..], Resolver(e.record, e.env)))
    requires e.cache.Keys + ScanTrail(t[i..], Resolver(e.record, e.env)) == keys0 + total
    modifies e
    ensures e.Valid() && i < next <= |t|
    ensures piece.Failed? ==> whole == piece && e.cache.Keys == keys0 + total
    ensures piece.Done? ==>
      whole == Then(Done(out + piece.text), Substitute(t[next..], Resolver(e.record, e.env))) &&
      e.cache.Keys + ScanTrail(t[next..], Resolver(e.record, e.env)) == keys0 + total
  {
    ghost var m := Resolver(e.record, e.env);
    var tk := NextToken(t[i..]);
    next := i + |Raw(tk)|;
    assert t[i..][|Raw(tk)|..] == t[next..];
    ghost var keys := e.cache.Keys;
    RenderStep(t[i..], m, out, whole, keys0, keys, total);
    piece := Replace(tk, e);
    assert piece == Replacement(tk, m) && e.cache.Keys == keys + TokenTrail(tk);
  }

  /** A consistent memo holding the same fields as an earlier consistent memo is that memo. */
  lemma MemoUnchanged(before: map<Field, Value>, e: RecordExpander)
    requires e.Valid() && forall f :: f in before ==> !f.IsStored() && before[f] == Derive(e.record, e.env, f)
    ensures e.cache.Keys == before.Keys ==> e.cache == before
  {
    if e.cache.Keys == before.Keys {
      MemoDeterminedByKeys(e.cache, before, e.record, e.env);
    }
  }

  /**
   * What one iteration of Render keeps, for any lookup m: with `cur` left
   * to scan, the output so far and the memo keys stay in step with the
   * rendering and the memoised fields of the whole template.
   */
  lemma RenderStep(cur: string, m: string -> Lookup, out: string, whole: Substitution,
                   keys0: set<Field>, keys: set<Field>, total: set<Field>)
    requires cur != []
    requires whole == Then(Done(out), Substitute(cur, m))
    requires keys + ScanTrail(cur, m) == keys0 + total
    ensures var tk := NextToken(cur); var r := Replacement(tk, m); var rest := cur[|Raw(tk)|..];
      (r.Failed? ==> whole == r && keys + TokenTrail(tk) == keys0 + total) &&
      (r.Done? ==>
         whole == Then(Done(out + r.text), Substitute(rest, m)) &&
         keys + TokenTrail(tk) + ScanTrail(rest, m) == keys0 + total)
  {
    var tk := NextToken(cur);
    var r := Replacement(tk, m);
    var rest := cur[|Raw(tk)|..];
    if r.Done? {
      ThenAssociative(Done(out), r, Substitute(rest, m));
    }
  }

  /** The replacement of one token, looking a placeholder's name up through the expander. */
  method Replace(tk: Token, e: RecordExpander) returns (piece: Substitution)
    requires e.Valid()
    modifies e
    ensures e.Valid()
    ensures piece == Replacement(tk, Resolver(e.record, e.env))
    ensures e.cache.Keys == old(e.cache.Keys) + TokenTrail(tk)
    ensures TokenTrail(tk) <= old(e.cache.Keys) ==> e.cache == old(e.cache)
  {
    match tk {
      case Literal(c) =>
        piece := Done([c]);
      case Escape =>
        piece := Done("$");
      case Lone =>
        piece := Done("$");
      case Named(n) =>
        var r := e.Get(n);
        piece := match r
          case Found(v) => Done(Show(v))
          case NotFound => Done(Raw(tk))
          case ShortcutError(c) => Failed(c);
      case Braced(n) =>
        var r := e.Get(n);
        piece := match r
          case Found(v) => Done(Show(v))
          case NotFound => Done(Raw(tk))
          case ShortcutError(c) => Failed(c);
    }
  }

  /** Text without '$' comes out unchanged. */
  lemma {:induction false} PlainTextUnchanged(t: string, m: string -> Lookup)
    requires '$' !in t
    ensures Substitute(t, m) == Done(t)
    decreases |t|
  {
    if t != [] {
      PlainTextUnchanged(t[1..], m);
      assert [t[0]] + t[1..] == t;
    }
  }

  /** "$$" gives a single '$', and scanning resumes right after it. */
  lemma EscapedDollar(t: string, m: string -> Lookup)
    ensures Substitute("$$" + t, m) == Then(Done("$"), Substitute(t, m))
  {
    assert ("$$" + t)[2..] == t;
  }

  /** A name followed by a character that cannot continue it is read whole. */
  lemma {:induction false} IdentLengthOfName(n: string, t: string)
    requires forall i :: 0 <= i < |n| ==> IsIdChar(n[i])
    requires t == [] || !IsIdChar(t[0])
    ensures IdentLength(n + t) == |n|
    decreases |n|
  {
    if n != [] {
      assert (n + t)[1..] == n[1..] + t;
      IdentLengthOfName(n[1..], t);
    }
  }

  /**
   * "$name" is replaced by str() of the looked-up value, kept as written on
   * KeyError, and the inserted text is not scanned again: scanning resumes
   * after the name.
   */
  lemma NamedPlaceholder(n: string, t: string, m: string -> Lookup)
    requires IsName(n) && (t == [] || !IsIdChar(t[0]))
    ensures m(n).Found? ==> Substitute("$" + n + t, m) == Then(Done(Show(m(n).v)), Substitute(t, m))
    ensures m(n).NotFound? ==> Substitute("$" + n + t, m) == Then(Done("$" + n), Substitute(t, m))
    ensures m(n).ShortcutError? ==> Substitute("$" + n + t, m) == Failed(m(n).c)
  {
    NamedToken(n, t);
  }

  /** The token at "$name" followed by a non-name character is the whole name. */
  lemma NamedToken(n: string, t: string)
    requires IsName(n) && (t == [] || !IsIdChar(t[0]))
    ensures NextToken("$" + n + t) == Named(n)
    ensures ("$" + n + t)[|Raw(Named(n))|..] == t
  {
    var s := "$" + n + t;
    assert s[1..] == n + t;
    IdentLengthOfName(n, t);
    assert s[1..1 + |n|] == n;
  }

  /** "${name}" behaves as "$name", and the text after the closing brace is scanned next. */
  lemma BracedPlaceholder(n: string, t: string, m: string -> Lookup)
    requires IsName(n)
    ensures m(n).Found? ==> Substitute("${" + n + "}" + t, m) == Then(Done(Show(m(n).v)), Substitute(t, m))
    ensures m(n).NotFound? ==> Substitute("${" + n + "}" + t, m) == Then(Done("${" + n + "}"), Substitute(t, m))
    ensures m(n).ShortcutError? ==> Substitute("${" + n + "}" + t, m) == Failed(m(n).c)
  {
    var s := "${" + n + "}" + t;
    assert s[2..] == n + ("}" + t);
    IdentLengthOfName(n, "}" + t);
    assert s[2..2 + |n|] == n;
    assert NextToken(s) == Braced(n);
    assert s[3 + |n|..] == t;
  }

  /** No two adjacent dollars. */
  predicate NoEscapes(t: string)
  {
    forall i :: 0 <= i < |t| - 1 ==> !(t[i] == '$' && t[i + 1] == '$')
  }

  /** Dropping a prefix keeps a text free of "$$". */
  lemma NoEscapesSuffix(t: string, k: nat)
    requires NoEscapes(t) && k <= |t|
    ensures NoEscapes(t[k..])
  {
    forall i | 0 <= i < |t[k..]| - 1
      ensures !(t[k..][i] == '$' && t[k..][i + 1] == '$')
    {
      assert t[k..][i] == t[k + i] && t[k..][i + 1] == t[k + i + 1];
    }
  }

  /** Every name the scan of t reads is a KeyError under m. */
  predicate NamesUnresolved(t: string, m: string -> Lookup)
    decreases |t|
  {
    t != [] ==>
      var tk := NextToken(t);
      (tk.Named? || tk.Braced? ==> m(tk.name) == NotFound) && NamesUnresolved(t[|Raw(tk)|..], m)
  }

  /** When the head token's name does not resolve and there is no "$$", the token is replaced by its own raw text. */
  lemma TokenKept(t: string, m: string -> Lookup)
    requires t != [] && NoEscapes(t) && NamesUnresolved(t, m)
    ensures Replacement(NextToken(t), m) == Done(Raw(NextToken(t)))
  {
  }

  /**
   * One step of a verbatim rendering: the head token, of length k, stays as
   * written, and the rest still qualifies.
   */
  lemma VerbatimStep(t: string, m: string -> Lookup) returns (k: nat)
    requires t != [] && NoEscapes(t) && NamesUnresolved(t, m)
    ensures 0 < k <= |t|
    ensures Substitute(t, m) == Then(Done(t[..k]), Substitute(t[k..], m))
    ensures NoEscapes(t[k..]) && NamesUnresolved(t[k..], m)
  {
    k := |Raw(NextToken(t))|;
    NoEscapesSuffix(t, k);
    TokenKept(t, m);
  }

  /** A text is its prefix followed by the rest. */
  lemma SplitJoin(t: string, k: nat)
    requires k <= |t|
    ensures t[..k] + t[k..] == t
  {
  }

  /** A template whose names all raise KeyError, and that holds no "$$", comes out as written. */
  lemma {:induction false} UnresolvedVerbatim(t: string, m: string -> Lookup)
    requires NoEscapes(t) && NamesUnresolved(t, m)
    ensures Substitute(t, m) == Done(t)
    decreases |t|
  {
    if t != [] {
      var k := VerbatimStep(t, m);
      UnresolvedVerbatim(t[k..], m);
      SplitJoin(t, k);
    }
  }

  /** A lone placeholder whose name is a KeyError meets the conditions of UnresolvedVerbatim. */
  lemma LonePlaceholderUnresolved(n: string, m: string -> Lookup)
    requires IsName(n) && m(n) == NotFound
    ensures NoEscapes("$" + n) && NamesUnresolved("$" + n, m)
  {
    NamedToken(n, []);
    assert "$" + n + [] == "$" + n;
    assert NamesUnresolved([], m);
    forall i | 0 <= i < |"$" + n| - 1 ensures !(("$" + n)[i] == '$' && ("$" + n)[i + 1] == '$') {
      assert ("$" + n)[i + 1] == n[i];
    }
  }

  /**
   * Against a real record, a placeholder naming no field is left as written:
   * "$unknownfield" renders as "$unknownfield".
   */
  lemma UnknownFieldVerbatim(r: Record, env: Env, n: string)
    requires IsName(n) && |n| > 1 && forall f :: NameOf(f) != n
    ensures Substitute("$" + n, Resolver(r, env)) == Done("$" + n)
  {
    UnknownNameIsKeyError(r, env, n);
    LonePlaceholderUnresolved(n, Resolver(r, env));
    UnresolvedVerbatim("$" + n, Resolver(r, env));
  }

  /**
   * Rendering "$b" is rendering "$basename": a shortcut placeholder shows
   * the full field. ('h' is the exception: see HiddenPlaceholderVerbatim.)
   */
  lemma ShortcutPlaceholder(r: Record, env: Env, c: char, t: string)
    requires c in Shortcuts && c != 'h' && IsIdStart(c) && (t == [] || !IsIdChar(t[0]))
    ensures IsName(Shortcuts[c])
    ensures Substitute("$" + [c] + t, Resolver(r, env)) == Substitute("$" + Shortcuts[c] + t, Resolver(r, env))
  {
    var m := Resolver(r, env);
    ShortcutTargetIsName(c);
    ShortcutResolvesLikeFullName(r, env, c);
    ShortcutTargetIsField(c);
    assert m([c]) == m(Shortcuts[c]) && m([c]).Found?;
    NamedPlaceholder([c], t, m);
    NamedPlaceholder(Shortcuts[c], t, m);
  }

  /** Every shortcut but 'h' names a field. */
  lemma ShortcutTargetIsField(c: char)
    requires c in Shortcuts && c != 'h'
    ensures FieldOf(Shortcuts[c]).Some?
  {
    if c == 'b' { FieldNamed(Basename); }
    else if c == 'f' { FieldNamed(File); }
    else if c == 'i' { FieldNamed(InfoUrl); }
    else if c == 'd' { FieldNamed(DeletionUrl); }
    else if c == 'u' { FieldNamed(DirectUrl); }
    else if c == 'D' { FieldNamed(Date); }
    else if c == 'e' { FieldNamed(ExpireDate); }
    else if c == 'x' { FieldNamed(Expired); }
    else { FieldNamed(Expires); }
  }

  /** Every shortcut expands to a name a placeholder can spell out. */
  lemma ShortcutTargetIsName(c: char)
    requires c in Shortcuts
    ensures IsName(Shortcuts[c])
  {
    var n := Shortcuts[c];
    assert n[0] in "bfhiduDexE";
    forall i | 0 <= i < |n| ensures IsIdChar(n[i]) {
      assert n[i] in "abcdefghijklmnopqrstuvwxyz_";
    }
  }

  /** "$h" stays as written: 'h' names "hidden", whose lookup is a KeyError. */
  lemma HiddenPlaceholderVerbatim(r: Record, env: Env)
    ensures Substitute("$h", Resolver(r, env)) == Done("$h")
  {
    HiddenShortcutIsKeyError(r, env);
    NamedPlaceholder("h", [], Resolver(r, env));
    assert "$" + "h" + [] == "$h";
  }

  /** A one-letter placeholder that is no shortcut ends the rendering with the shortcut error. */
  lemma UnknownShortcutAborts(r: Record, env: Env, c: char, t: string)
    requires c !in Shortcuts && IsIdStart(c) && (t == [] || !IsIdChar(t[0]))
    ensures Substitute("$" + [c] + t, Resolver(r, env)) == Failed(c)
  {
    UnknownShortcutRaises(r, env, c);
    NamedPlaceholder([c], t, Resolver(r, env));
  }

  /** A boolean field is shown as Python shows it: "$hide" renders as "True" or "False". */
  lemma BooleanShown(r: Record, env: Env, t: string)
    requires t == [] || !IsIdChar(t[0])
    ensures Substitute("$" + "hide" + t, Resolver(r, env)) ==
            Then(Done(if r.hide then "True" else "False"), Substitute(t, Resolver(r, env)))
  {
    var m := Resolver(r, env);
    StoredKeysWin(r, env, Hide);
    assert m("hide") == Found(Bool(r.hide));
    assert IsName("hide");
    NamedPlaceholder("hide", t, m);
  }
}
