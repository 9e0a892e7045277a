/** `_render`: one left-to-right substitution of `{{reference}}` by what a resolver says.

    The pattern is two opening braces, one or more characters other than a closing brace,
    two closing braces; matches are leftmost and do not overlap. A reference that does not
    resolve is left as it stands. */
module Template {
  import opened Nets

  type Resolver = string -> Option<string>

  // Where the first closing brace of `t` at or after `k` stands, or |t|.
  function CloseFrom(t: string, k: nat): (j: nat)
    requires k <= |t|
    ensures k <= j <= |t|
    ensures forall i :: k <= i < j ==> t[i] != '}'
    ensures j < |t| ==> t[j] == '}'
    decreases |t| - k
  {
    if k == |t| || t[k] == '}' then k else CloseFrom(t, k + 1)
  }

  // The length of the match at the head of `t`, zero when there is none.
  function MatchLength(t: string): (n: nat)
    ensures n <= |t| && (n > 0 ==> n >= 5)
  {
    if |t| >= 2 && t[0] == '{' && t[1] == '{' then
      var j := CloseFrom(t, 2);
      if j > 2 && j + 1 < |t| && t[j + 1] == '}' then j + 2 else 0
    else 0
  }

  // The text between the braces of a match of length `n`.
  function Reference(t: string, n: nat): string
    requires 5 <= n <= |t|
  {
    t[2..n - 2]
  }

  function Replacement(r: Resolver, t: string, n: nat): string
    requires 5 <= n <= |t|
  {
    match r(Reference(t, n))
    case Some(v) => v
    case None => t[..n]
  }

  function Render(r: Resolver, t: string): string
    decreases |t|
  {
    if |t| == 0 then ""
    else
      var n := MatchLength(t);
      if n > 0 then Replacement(r, t, n) + Render(r, t[n..]) else [t[0]] + Render(r, t[1..])
  }

  // ----- losslessness -----

  // The references a scan of `t` meets, in order.
  function References(t: string): seq<string>
    decreases |t|
  {
    if |t| == 0 then []
    else
      var n := MatchLength(t);
      if n > 0 then [Reference(t, n)] + References(t[n..]) else References(t[1..])
  }

  // If no reference of the text resolves, the text comes back as it was.
  lemma {:induction false} UnresolvedIsUnchanged(r: Resolver, t: string)
    requires forall ref :: ref in References(t) ==> r(ref).None?
    ensures Render(r, t) == t
    decreases |t|
  {
    if |t| == 0 {
    } else {
      var n := MatchLength(t);
      if n > 0 {
        assert References(t) == [Reference(t, n)] + References(t[n..]);
        assert References(t)[0] == Reference(t, n);
        UnresolvedIsUnchanged(r, t[n..]);
        assert t == t[..n] + t[n..];
      } else {
        UnresolvedIsUnchanged(r, t[1..]);
        assert t == [t[0]] + t[1..];
      }
    }
  }

  // What can stand between the braces.
  predicate Usable(ref: string) {
    |ref| > 0 && '}' !in ref
  }

  lemma ReferenceIsUsable(t: string)
    requires MatchLength(t) > 0
    ensures Usable(Reference(t, MatchLength(t)))
  {
  }

  // ----- matches and what follows them -----

  // The scanner against the pattern itself: it finds a match exactly when some non-empty
  // reference without a closing brace stands between the braces, and that is the reference.
  lemma MatchIsPattern(t: string, ref: string)
    requires Usable(ref)
    ensures "{{" + ref + "}}" <= t <==> MatchLength(t) == |ref| + 4 && Reference(t, |ref| + 4) == ref
    ensures MatchLength(t) > 0 ==> "{{" + Reference(t, MatchLength(t)) + "}}" <= t
  {
    if "{{" + ref + "}}" <= t {
      WholeMatch(ref, t[|ref| + 4..]);
      assert t == "{{" + ref + "}}" + t[|ref| + 4..];
    }
    if MatchLength(t) > 0 {
      var n := MatchLength(t);
      assert t[..n] == "{{" + Reference(t, n) + "}}";
    }
  }

  // Some match of the pattern starts at `k`.
  ghost predicate StartsMatch(t: string, k: nat)
    requires k <= |t|
  {
    exists ref :: Usable(ref) && "{{" + ref + "}}" <= t[k..]
  }

  lemma StartsMatchIff(t: string, k: nat)
    requires k <= |t|
    ensures StartsMatch(t, k) <==> MatchLength(t[k..]) > 0
  {
    if ref :| Usable(ref) && "{{" + ref + "}}" <= t[k..] {
      MatchIsPattern(t[k..], ref);
    }
    if MatchLength(t[k..]) > 0 {
      ReferenceIsUsable(t[k..]);
      MatchIsPattern(t[k..], Reference(t[k..], MatchLength(t[k..])));
    }
  }

  // The first match of the text starts at `k`, with the reference `ref`.
  ghost predicate FirstMatch(t: string, k: nat, ref: string) {
    && k <= |t| && Usable(ref) && "{{" + ref + "}}" <= t[k..]
    && forall j: nat :: j < k ==> !StartsMatch(t, j)
  }

  // What rendering does, on every text: a text without a match stays as it is; of any other, the
  // first match is replaced by the value of its reference, or left if there is none, what stands
  // before it is copied, and what comes after it is rendered in turn.
  lemma RenderIsSubstitution(r: Resolver, t: string)
    ensures (forall k: nat :: k <= |t| ==> !StartsMatch(t, k)) ==> Render(r, t) == t
    ensures forall k: nat, ref :: FirstMatch(t, k, ref) ==> Substitutes(r, t, k, ref)
  {
    if forall k: nat :: k <= |t| ==> !StartsMatch(t, k) {
      NoMatchCopied(r, t, |t|);
      assert t[|t|..] == "" && t[..|t|] + "" == t;
    }
    forall k: nat, ref | FirstMatch(t, k, ref)
      ensures Substitutes(r, t, k, ref)
    {
      FirstIsReplaced(r, t, k, ref);
    }
  }

  ghost predicate Substitutes(r: Resolver, t: string, k: nat, ref: string) {
    && k + |ref| + 4 <= |t|
    && Render(r, t) == t[..k] + ((if r(ref).Some? then r(ref).value else "{{" + ref + "}}")
                                 + Render(r, t[k + |ref| + 4..]))
  }

  lemma FirstIsReplaced(r: Resolver, t: string, k: nat, ref: string)
    requires FirstMatch(t, k, ref)
    ensures Substitutes(r, t, k, ref)
  {
    NoMatchCopied(r, t, k);
    RenderFirst(r, t[k..], ref);
    assert t[k..][|ref| + 4..] == t[k + |ref| + 4..];
  }

  lemma NoMatchCopied(r: Resolver, t: string, k: nat)
    requires k <= |t| && forall j: nat :: j < k ==> !StartsMatch(t, j)
    ensures Render(r, t) == t[..k] + Render(r, t[k..])
  {
    forall j: nat | j < k
      ensures MatchLength(t[j..]) == 0
    {
      StartsMatchIff(t, j);
    }
    CopiesUnmatched(r, t, k);
  }

  lemma RenderFirst(r: Resolver, t: string, ref: string)
    requires Usable(ref) && "{{" + ref + "}}" <= t
    ensures |ref| + 4 <= |t|
    ensures Render(r, t) == (if r(ref).Some? then r(ref).value else "{{" + ref + "}}") + Render(r, t[|ref| + 4..])
  {
    MatchIsPattern(t, ref);
    assert t[..|ref| + 4] == "{{" + ref + "}}";
  }

  // A match is found from its own characters alone.
  lemma MatchIsLocal(t: string, rest: string)
    requires MatchLength(t) > 0
    ensures MatchLength(t[..MatchLength(t)] + rest) == MatchLength(t)
    ensures Reference(t[..MatchLength(t)] + rest, MatchLength(t)) == Reference(t, MatchLength(t))
  {
    var n := MatchLength(t);
    var u := t[..n] + rest;
    var j := CloseFrom(t, 2);
    CloseUnique(u, 2, j);
    assert Reference(u, n) == u[2..n - 2] == t[2..n - 2];
  }

  lemma CloseUnique(t: string, k: nat, j: nat)
    requires k <= j < |t| && t[j] == '}' && forall i :: k <= i < j ==> t[i] != '}'
    ensures CloseFrom(t, k) == j
  {
  }

  // Characters at which no match starts are copied.
  lemma {:induction false} CopiesUnmatched(r: Resolver, t: string, m: nat)
    requires m <= |t| && forall k :: 0 <= k < m ==> MatchLength(t[k..]) == 0
    ensures Render(r, t) == t[..m] + Render(r, t[m..])
    decreases m
  {
    if m == 0 {
      assert t[..0] == "" && t[0..] == t;
    } else {
      var u := t[m - 1..];
      CopiesUnmatched(r, t, m - 1);
      assert MatchLength(u) == 0 && u[1..] == t[m..];
      Assoc(t[..m - 1], [u[0]], Render(r, t[m..]));
      assert t[..m - 1] + [u[0]] == t[..m];
    }
  }

  // ----- values that cannot be mistaken for template text -----

  // Not empty, no leading closing brace, no trailing opening brace, no two opening braces in
  // a row. Text without any brace is of this kind.
  predicate Inert(v: string) {
    |v| > 0 && v[0] != '}' && v[|v| - 1] != '{' && NoDouble(v)
  }

  predicate NoDouble(v: string) {
    forall i :: 0 <= i < |v| - 1 ==> !(v[i] == '{' && v[i + 1] == '{')
  }

  ghost predicate InertResolver(r: Resolver) {
    forall ref :: Usable(ref) && r(ref).Some? ==> Inert(r(ref).value)
  }

  lemma BraceFreeIsInert(v: string)
    requires |v| > 0 && '{' !in v && '}' !in v
    ensures Inert(v)
  {
  }

  // No match starts inside an inert value, whatever follows it.
  lemma InertStartsNoMatch(v: string, rest: string, k: nat)
    requires Inert(v) && k < |v|
    ensures MatchLength((v + rest)[k..]) == 0
  {
    var u := (v + rest)[k..];
    if |u| >= 2 && k + 1 < |v| {
      assert u[0] == v[k] && u[1] == v[k + 1];
    }
  }

  lemma InertIsCopied(r: Resolver, v: string, rest: string)
    requires Inert(v)
    ensures Render(r, v + rest) == v + Render(r, rest)
  {
    forall k | 0 <= k < |v|
      ensures MatchLength((v + rest)[k..]) == 0
    {
      InertStartsNoMatch(v, rest, k);
    }
    CopiesUnmatched(r, v + rest, |v|);
    assert (v + rest)[..|v|] == v && (v + rest)[|v|..] == rest;
  }

  // ----- idempotence -----

  // What the output of a rendering can start with.
  lemma OutputHead(r: Resolver, t: string)
    requires InertResolver(r)
    ensures |t| == 0 <==> |Render(r, t)| == 0
    ensures |t| > 0 && Render(r, t)[0] == '}' ==> t[0] == '}'
    ensures |t| > 0 && MatchLength(t) == 0 ==> Render(r, t)[0] == t[0]
  {
    if |t| > 0 && MatchLength(t) > 0 {
      var v := Replacement(r, t, MatchLength(t));
      ReferenceIsUsable(t);
      assert |v| > 0 && v[0] != '}';
      assert Render(r, t)[0] == v[0];
    }
  }

  // Opening braces that do not start a match start none in the output either: the first
  // closing brace after them is too near or not doubled, and stays so.
  lemma NoNewMatch(r: Resolver, t: string)
    requires InertResolver(r) && |t| > 0 && MatchLength(t) == 0
    ensures MatchLength([t[0]] + Render(r, t[1..])) == 0
  {
    var o := Render(r, t[1..]);
    if t[0] == '{' && |o| > 0 && o[0] == '{' {
      OutputHead(r, t[1..]);
      if MatchLength(t[1..]) > 0 {
        MatchExtendsLeft(t);
      }
      assert t[1] == '{';
      DoubleBraceStaysOpen(r, t);
    }
  }

  // `{` before a match makes a longer match.
  lemma MatchExtendsLeft(t: string)
    requires |t| > 1 && t[0] == '{' && MatchLength(t[1..]) > 0
    ensures MatchLength(t) > 0
  {
    var j := CloseFrom(t[1..], 2);
    assert t[1] == t[1..][0] == '{' && t[2] == t[1..][1] == '{';
    forall i | 2 <= i < j + 1
      ensures t[i] != '}'
    {
      if i > 2 {
        assert t[i] == t[1..][i - 1];
      }
    }
    assert t[j + 1] == t[1..][j] && t[j + 2] == t[1..][j + 1];
    CloseUnique(t, 2, j + 1);
  }

  // Up to and including the first closing brace, nothing after an open `{{` is matched.
  lemma NothingMatchesInside(t: string, k: nat)
    requires |t| >= 2 && t[0] == '{' && t[1] == '{' && MatchLength(t) == 0
    requires 1 <= k <= CloseFrom(t, 2) && k < |t|
    ensures MatchLength(t[k..]) == 0
  {
    var j := CloseFrom(t, 2);
    var u := t[k..];
    if |u| >= 2 && u[0] == '{' && u[1] == '{' && j < |t| {
      assert u[1] == t[k + 1];
      CloseUnique(u, 2, j - k);
    }
  }

  // An open `{{` is copied up to its first closing brace.
  lemma OpenIsCopied(r: Resolver, t: string, m: nat)
    requires |t| >= 2 && t[0] == '{' && t[1] == '{' && MatchLength(t) == 0
    requires m < |t| && m <= CloseFrom(t, 2)
    ensures [t[0]] + Render(r, t[1..]) == t[..m + 1] + Render(r, t[m + 1..])
  {
    var u := t[1..];
    forall k | 0 <= k < m
      ensures MatchLength(u[k..]) == 0
    {
      assert u[k..] == t[k + 1..];
      NothingMatchesInside(t, k + 1);
    }
    CopiesUnmatched(r, u, m);
    var copied, rest := u[..m], u[m..];
    Assoc([t[0]], copied, Render(r, rest));
    assert [t[0]] + copied == t[..m + 1];
    assert rest == t[m + 1..];
  }

  lemma DoubleBraceStaysOpen(r: Resolver, t: string)
    requires InertResolver(r)
    requires |t| >= 2 && t[0] == '{' && t[1] == '{' && MatchLength(t) == 0
    ensures MatchLength([t[0]] + Render(r, t[1..])) == 0
  {
    var j := CloseFrom(t, 2);
    if j < |t| {
      OpenIsCopied(r, t, j);
      var o := t[..j + 1] + Render(r, t[j + 1..]);
      CloseUnique(o, 2, j);
      OutputHead(r, t[j + 1..]);
    } else {
      OpenIsCopied(r, t, |t| - 1);
      assert t[|t|..] == "" && t[..|t|] + "" == t;
    }
  }

  // Rendering what has been rendered changes nothing.
  lemma {:induction false} RenderIsIdempotent(r: Resolver, t: string)
    requires InertResolver(r)
    ensures Render(r, Render(r, t)) == Render(r, t)
    decreases |t|
  {
    if |t| == 0 {
    } else {
      var n := MatchLength(t);
      if n == 0 {
        var o := Render(r, t[1..]);
        RenderIsIdempotent(r, t[1..]);
        NoNewMatch(r, t);
        assert ([t[0]] + o)[1..] == o;
      } else {
        var o := Render(r, t[n..]);
        RenderIsIdempotent(r, t[n..]);
        ReferenceIsUsable(t);
        match r(Reference(t, n)) {
          case Some(v) => InertIsCopied(r, v, o);
          case None =>
            MatchIsLocal(t, o);
            assert (t[..n] + o)[n..] == o && (t[..n] + o)[..n] == t[..n];
        }
      }
    }
  }

  // ----- which values break it -----

  // `{{ref}}` is one match.
  lemma WholeMatch(ref: string, rest: string)
    requires Usable(ref)
    ensures MatchLength("{{" + ref + "}}" + rest) == |ref| + 4
    ensures Reference("{{" + ref + "}}" + rest, |ref| + 4) == ref
  {
    var t := "{{" + ref + "}}" + rest;
    CloseUnique(t, 2, |ref| + 2);
    assert t[2..|ref| + 2] == ref;
  }

  lemma RenderWhole(r: Resolver, ref: string, rest: string)
    requires Usable(ref) && r(ref).Some?
    ensures Render(r, "{{" + ref + "}}" + rest) == r(ref).value + Render(r, rest)
  {
    WholeMatch(ref, rest);
    assert ("{{" + ref + "}}" + rest)[|ref| + 4..] == rest;
  }

  // `{{ref}` followed by anything but a closing brace is copied.
  lemma RenderHalf(r: Resolver, ref: string, rest: string)
    requires Usable(ref) && |rest| > 0 && rest[0] != '}'
    ensures Render(r, "{{" + ref + "}" + rest) == "{{" + ref + "}" + Render(r, rest)
  {
    var t := "{{" + ref + "}" + rest;
    var m := |ref| + 3;
    CloseUnique(t, 2, m - 1);
    assert t[m] == rest[0];
    forall k | 0 <= k < m
      ensures MatchLength(t[k..]) == 0
    {
      if k > 0 {
        NothingMatchesInside(t, k);
      } else {
        assert t[0..] == t;
      }
    }
    CopiesUnmatched(r, t, m);
    assert t[..m] == "{{" + ref + "}" && t[m..] == rest;
  }

  // An empty value lets its neighbours close an open `{{`.
  lemma EmptyValueBreaks(r: Resolver, ref: string)
    requires Usable(ref) && r(ref) == Some("")
    ensures var t := "{{" + ref + "}" + ("{{" + ref + "}}" + "}");
            Render(r, Render(r, t)) != Render(r, t)
  {
    var inner := "{{" + ref + "}}" + "}";
    var once := "{{" + ref + "}" + "}";
    assert Render(r, inner) == "}" by {
      RenderWhole(r, ref, "}");
      assert MatchLength("}") == 0 && Render(r, "}") == "}" + Render(r, "}"[1..]);
    }
    RenderHalf(r, ref, inner);
    assert once == "{{" + ref + "}}" + "";
    RenderWhole(r, ref, "");
    assert Render(r, once) == "" && |once| > 0;
  }

  // So does a value that starts with a closing brace.
  lemma ClosingValueBreaks(r: Resolver, ref: string)
    requires Usable(ref) && r(ref).Some? && |r(ref).value| > 0 && r(ref).value[0] == '}'
    ensures var t := "{{" + ref + "}" + ("{{" + ref + "}}" + "");
            Render(r, Render(r, t)) != Render(r, t)
  {
    var inner := "{{" + ref + "}}" + "";
    var v := r(ref).value;
    RenderWhole(r, ref, "");
    RenderHalf(r, ref, inner);
    assert Render(r, "{{" + ref + "}" + inner) == "{{" + ref + "}" + v;
    assert "{{" + ref + "}" + v == "{{" + ref + "}}" + v[1..];
    RenderWhole(r, ref, v[1..]);
  }

  // Rendering with this resolver twice is rendering once, for every text.
  ghost predicate IdempotentFor(r: Resolver) {
    forall t :: Stable(r, t)
  }

  ghost predicate Stable(r: Resolver, t: string) {
    Render(r, Render(r, t)) == Render(r, t)
  }

  lemma InertIsIdempotent(r: Resolver)
    requires InertResolver(r)
    ensures IdempotentFor(r)
  {
    forall t
      ensures Stable(r, t)
    {
      RenderIsIdempotent(r, t);
    }
  }

  // Values that are not empty and contain no brace are safe.
  lemma PlainValuesAreStable(r: Resolver)
    requires forall ref :: Usable(ref) && r(ref).Some? ==>
               |r(ref).value| > 0 && '{' !in r(ref).value && '}' !in r(ref).value
    ensures IdempotentFor(r)
  {
    forall ref | Usable(ref) && r(ref).Some?
      ensures Inert(r(ref).value)
    {
      BraceFreeIsInert(r(ref).value);
    }
    InertIsIdempotent(r);
  }

  // A reference that resolves, none shorter than it.
  ghost predicate Shortest(r: Resolver, ref: string) {
    Usable(ref) && r(ref).Some? && forall other :: Usable(other) && r(other).Some? ==> |ref| <= |other|
  }

  lemma {:induction false} ShortestExists(r: Resolver, ref: string) returns (least: string)
    requires Usable(ref) && r(ref).Some?
    ensures Shortest(r, least)
    decreases |ref|
  {
    if other :| Usable(other) && r(other).Some? && |other| < |ref| {
      least := ShortestExists(r, other);
    } else {
      least := ref;
    }
  }

  lemma {:induction false} ReferencesAreShort(t: string, ref: string)
    requires ref in References(t)
    ensures Usable(ref) && |ref| + 4 <= |t|
    decreases |t|
  {
    var n := MatchLength(t);
    if n == 0 {
      ReferencesAreShort(t[1..], ref);
    } else if ref == Reference(t, n) {
      ReferenceIsUsable(t);
    } else {
      ReferencesAreShort(t[n..], ref);
    }
  }

  // The second half of a reference that none is shorter than is copied.
  lemma HalfIsCopied(r: Resolver, least: string)
    requires Shortest(r, least)
    ensures var half := "{" + least + "}}"; Render(r, half) == half
  {
    var half := "{" + least + "}}";
    forall other | other in References(half)
      ensures r(other).None?
    {
      ReferencesAreShort(half, other);
    }
    UnresolvedIsUnchanged(r, half);
  }

  lemma StartsDifferently(w: string, whole: string, v: string)
    requires |whole| >= 2 && whole[0] == '{' && whole[1] == '{' && NoDouble(v)
    ensures w + v != w + whole
  {
    assert (w + v)[|w|..] == v && (w + whole)[|w|..] == whole;
    assert !NoDouble(whole);
  }

  // After an opening brace the half makes a whole.
  lemma HalfMakesWhole(w: string, least: string)
    ensures (w + "{") + ("{" + least + "}}") == w + ("{{" + least + "}}")
  {
    assert "{" + ("{" + least) == "{{" + least;
    Assoc("{", "{" + least, "}}");
    Assoc(w, "{", "{" + least + "}}");
  }

  lemma OpeningFirstPass(r: Resolver, ref: string, least: string, w: string)
    requires Usable(ref) && r(ref) == Some(w + "{") && Shortest(r, least)
    ensures Render(r, "{{" + ref + "}}" + ("{" + least + "}}")) == w + ("{{" + least + "}}")
  {
    var half := "{" + least + "}}";
    RenderWhole(r, ref, half);
    HalfIsCopied(r, least);
    HalfMakesWhole(w, least);
  }

  lemma OpeningSecondPass(r: Resolver, least: string, w: string)
    requires Usable(least) && r(least).Some? && NoDouble(w + "{")
    ensures Render(r, w + ("{{" + least + "}}")) == w + r(least).value
  {
    var whole := "{{" + least + "}}";
    assert whole + "" == whole;
    RenderWhole(r, least, "");
    assert r(least).value + Render(r, "") == r(least).value;
    assert (w + "{")[..|w|] == w;
    UpToWhole(r, w + "{", whole);
  }

  lemma OpeningValueBreaks(r: Resolver, ref: string, least: string)
    requires Usable(ref) && r(ref).Some? && Shortest(r, least) && NoDouble(r(ref).value) && NoDouble(r(least).value)
    requires |r(ref).value| > 0 && r(ref).value[|r(ref).value| - 1] == '{'
    ensures var t := "{{" + ref + "}}" + ("{" + least + "}}");
            Render(r, Render(r, t)) != Render(r, t)
  {
    var v := r(ref).value;
    var w := v[..|v| - 1];
    assert v == w + "{";
    OpeningFirstPass(r, ref, least, w);
    OpeningSecondPass(r, least, w);
    StartsDifferently(w, "{{" + least + "}}", r(least).value);
  }

  // Nothing but its end can start a match in a value without two opening braces in a row.
  lemma UpToWhole(r: Resolver, v: string, whole: string)
    requires |v| > 0 && v[|v| - 1] == '{' && NoDouble(v) && |whole| > 0 && whole[0] == '{'
    ensures var w := v[..|v| - 1]; Render(r, w + whole) == w + Render(r, whole)
  {
    var w := v[..|v| - 1];
    forall k | 0 <= k < |w|
      ensures MatchLength((w + whole)[k..]) == 0
    {
      var u := (w + whole)[k..];
      assert u[0] == v[k] && u[1] == v[k + 1];
    }
    CopiesUnmatched(r, w + whole, |w|);
    assert (w + whole)[..|w|] == w && (w + whole)[|w|..] == whole;
  }

  // Whatever value is not inert spoils some text, unless it has two opening braces in a row.
  lemma NotInertBreaks(r: Resolver, ref: string) returns (t: string)
    requires forall other :: Usable(other) && r(other).Some? ==> NoDouble(r(other).value)
    requires Usable(ref) && r(ref).Some? && !Inert(r(ref).value)
    ensures !Stable(r, t)
  {
    var v := r(ref).value;
    if |v| == 0 {
      EmptyValueBreaks(r, ref);
      t := "{{" + ref + "}" + ("{{" + ref + "}}" + "}");
    } else if v[0] == '}' {
      ClosingValueBreaks(r, ref);
      t := "{{" + ref + "}" + ("{{" + ref + "}}" + "");
    } else {
      var least := ShortestExists(r, ref);
      OpeningValueBreaks(r, ref, least);
      t := "{{" + ref + "}}" + ("{" + least + "}}");
    }
  }

  // For values without two opening braces in a row the condition is exact: rendering is
  // idempotent on all texts if and only if no value is empty, starts with a closing brace or
  // ends with an opening one.
  lemma IdempotentIff(r: Resolver)
    requires forall ref :: Usable(ref) && r(ref).Some? ==> NoDouble(r(ref).value)
    ensures IdempotentFor(r) <==> InertResolver(r)
  {
    if InertResolver(r) {
      InertIsIdempotent(r);
    } else {
      var ref :| Usable(ref) && r(ref).Some? && !Inert(r(ref).value);
      var t := NotInertBreaks(r, ref);
    }
  }
}
