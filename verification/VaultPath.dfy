/**
 Path normalisation of the share scope: a path string stands for a list of components.
 `Components` is the list a path means, `Render` writes a list back, and the lemmas
 show that the two are inverse on normal lists and that string containment is list prefix.
 */
module VaultPath {
  import opened Wrappers

  const UP := ".."

  /** The pieces between slashes, empty ones included; never an empty list. */
  function Pieces(s: string): (ps: seq<string>)
    ensures |ps| >= 1
    ensures forall p :: p in ps ==> '/' !in p
  {
    if s == "" then [""]
    else if s[0] == '/' then [""] + Pieces(s[1..])
    else
      var rest := Pieces(s[1..]);
      [[s[0]] + rest[0]] + rest[1..]
  }

  /** What one piece does to the components collected so far. */
  function Push(acc: seq<string>, piece: string): seq<string> {
    if piece == "" || piece == "." then acc
    else if piece == UP then
      if acc != [] && acc[|acc| - 1] != UP then acc[..|acc| - 1] else acc + [UP]
    else acc + [piece]
  }

  function PushAll(acc: seq<string>, ps: seq<string>): seq<string>
    decreases |ps|
  {
    if ps == [] then acc else PushAll(Push(acc, ps[0]), ps[1..])
  }

  /** The component list a path string means. */
  function Components(path: string): seq<string> {
    PushAll([], Pieces(path))
  }

  function Join(cs: seq<string>): string {
    if cs == [] then "" else "/" + cs[0] + Join(cs[1..])
  }

  /** The absolute path string of a component list. */
  function Render(cs: seq<string>): string {
    if cs == [] then "/" else Join(cs)
  }

  predicate Escapes(path: string) {
    UP in Components(path)
  }

  function Rooted(path: string): string {
    if path == "" then "/" else if path[0] != '/' then "/" + path else path
  }

  /** The normal form of a path, or `None` where the source rejects an embedded NUL byte. */
  function Normalized(path: string): Option<string> {
    if '\0' in path then None else Some(Render(Components(Rooted(path))))
  }

  /** Containment as the source tests it, on the normalised strings. */
  predicate StringContains(root: string, candidate: string) {
    if Escapes(root) || Escapes(candidate) then false
    else if root == "/" then true
    else if candidate == root then true
    else if !(root <= candidate) then false
    else |candidate| > |root| && candidate[|root|] == '/'
  }

  function Contains(rootPath: string, candidatePath: string): Option<bool> {
    match (Normalized(rootPath), Normalized(candidatePath))
    case (Some(root), Some(candidate)) => Some(StringContains(root, candidate))
    case _ => None
  }

  // ---------------------------------------------------------------- normal lists

  /** A component a path can carry. */
  predicate Clean(c: string) {
    c != "" && c != "." && '/' !in c
  }

  /** Clean components whose `..` entries, if any, all come first. */
  ghost predicate Normal(cs: seq<string>) {
    && (forall i :: 0 <= i < |cs| ==> Clean(cs[i]))
    && (forall i, j :: 0 <= i < j < |cs| && cs[j] == UP ==> cs[i] == UP)
  }

  lemma {:induction false} PushAllNormal(acc: seq<string>, ps: seq<string>)
    requires Normal(acc)
    requires forall p :: p in ps ==> '/' !in p
    ensures Normal(PushAll(acc, ps))
    decreases |ps|
  {
    if ps != [] {
      assert ps[0] in ps;
      PushAllNormal(Push(acc, ps[0]), ps[1..]);
    }
  }

  lemma ComponentsNormal(path: string)
    ensures Normal(Components(path))
  {
    PushAllNormal([], Pieces(path));
  }

  lemma {:induction false} PushAllKeeps(acc: seq<string>, cs: seq<string>)
    requires Normal(acc + cs)
    ensures PushAll(acc, cs) == acc + cs
    decreases |cs|
  {
    if cs == [] {
      assert acc + cs == acc;
    } else {
      assert (acc + cs)[|acc|] == cs[0];
      assert cs[0] == UP && acc != [] ==> (acc + cs)[|acc| - 1] == UP;
      assert Push(acc, cs[0]) == acc + [cs[0]];
      assert (acc + [cs[0]]) + cs[1..] == acc + cs;
      PushAllKeeps(acc + [cs[0]], cs[1..]);
    }
  }

  /** Splitting at a slash in the middle. */
  lemma {:induction false} PiecesAppend(a: string, u: string)
    ensures Pieces(a + "/" + u) == Pieces(a) + Pieces(u)
  {
    var s := a + "/" + u;
    if a == "" {
      assert s[1..] == u;
    } else {
      assert s[0] == a[0];
      assert s[1..] == a[1..] + "/" + u;
      PiecesAppend(a[1..], u);
    }
  }

  lemma {:induction false} PiecesOfComponent(c: string)
    requires '/' !in c
    ensures Pieces(c) == [c]
  {
    if c != "" {
      assert c[0] in c;
      assert forall x :: x in c[1..] ==> x in c;
      PiecesOfComponent(c[1..]);
      assert [c[0]] + c[1..] == c;
    }
  }

  lemma PiecesAfterSlash(u: string)
    ensures Pieces("/" + u) == [""] + Pieces(u)
  {
    assert ("/" + u)[1..] == u;
  }

  lemma PiecesStep(c: string, tail: string)
    requires '/' !in c && (tail == "" || tail[0] == '/')
    ensures Pieces("/" + c + tail) == ["", c] + Pieces(tail)[1..]
  {
    hide Pieces;
    PiecesOfComponent(c);
    assert "/" + c + tail == "/" + (c + tail);
    PiecesAfterSlash(c + tail);
    if tail == "" {
      PiecesOfComponent("");
      assert c + tail == c;
      assert [""] + [c] == ["", c] + [""][1..];
    } else {
      var u := tail[1..];
      assert tail == "/" + u;
      PiecesAfterSlash(u);
      assert c + tail == c + "/" + u;
      PiecesAppend(c, u);
      assert [""] + ([c] + Pieces(u)) == ["", c] + ([""] + Pieces(u))[1..];
    }
  }

  lemma {:induction false} PiecesOfJoin(cs: seq<string>)
    requires forall i :: 0 <= i < |cs| ==> '/' !in cs[i]
    ensures Pieces(Join(cs)) == [""] + cs
  {
    hide Pieces;
    if cs == [] {
      PiecesOfComponent("");
      assert [""] + cs == [""];
    } else {
      PiecesOfJoin(cs[1..]);
      PiecesStep(cs[0], Join(cs[1..]));
      assert ["", cs[0]] + ([""] + cs[1..])[1..] == [""] + cs;
    }
  }

  /** Reading a rendered normal list gives the list back. */
  lemma ComponentsOfRender(cs: seq<string>)
    requires Normal(cs)
    ensures Components(Render(cs)) == cs
  {
    if cs == [] {
      assert Pieces("/") == ["", ""];
    } else {
      PiecesOfJoin(cs);
      assert ([""] + cs)[1..] == cs;
      assert PushAll([], [""] + cs) == PushAll([], cs);
      assert [] + cs == cs;
      PushAllKeeps([], cs);
    }
  }

  lemma ComponentsOfRooted(path: string)
    ensures Components(Rooted(path)) == Components(path)
  {
    if path == "" {
      assert Pieces("/") == ["", ""];
    } else if path[0] != '/' {
      assert ("/" + path)[1..] == path;
      assert ([""] + Pieces(path))[1..] == Pieces(path);
    }
  }

  lemma {:induction false} NoNulInPieces(s: string)
    requires '\0' !in s
    ensures forall p :: p in Pieces(s) ==> '\0' !in p
  {
    if s != "" {
      assert forall x :: x in s[1..] ==> x in s;
      NoNulInPieces(s[1..]);
      if s[0] != '/' {
        var rest := Pieces(s[1..]);
        assert rest[0] in rest;
        assert s[0] in s;
      }
    }
  }

  lemma {:induction false} NoNulInPushAll(acc: seq<string>, ps: seq<string>)
    requires forall p :: p in acc ==> '\0' !in p
    requires forall p :: p in ps ==> '\0' !in p
    ensures forall p :: p in PushAll(acc, ps) ==> '\0' !in p
    decreases |ps|
  {
    if ps != [] {
      assert ps[0] in ps;
      NoNulInPushAll(Push(acc, ps[0]), ps[1..]);
    }
  }

  lemma {:induction false} NoNulInJoin(cs: seq<string>)
    requires forall c :: c in cs ==> '\0' !in c
    ensures '\0' !in Join(cs)
  {
    if cs != [] {
      assert cs[0] in cs;
      NoNulInJoin(cs[1..]);
    }
  }

  lemma NormalizedHasNoNul(path: string)
    requires Normalized(path).Some?
    ensures '\0' !in Normalized(path).value
  {
    ComponentsOfRooted(path);
    NoNulInPieces(path);
    NoNulInPushAll([], Pieces(path));
    NoNulInJoin(Components(path));
  }

  lemma RenderIsRooted(cs: seq<string>)
    ensures Render(cs) != "" && Render(cs)[0] == '/'
    ensures Rooted(Render(cs)) == Render(cs)
  {
    assert cs != [] ==> Render(cs)[0] == ("/" + cs[0] + Join(cs[1..]))[0];
  }

  /**
   The normal form means what the path meant, is its own normal form, is absolute,
   and keeps `..` components only at its front.
   */
  lemma NormalizeMeaning(path: string)
    requires '\0' !in path
    ensures Normalized(path).Some?
    ensures var norm := Normalized(path).value;
      && Components(norm) == Components(path)
      && norm == Render(Components(path))
      && Normalized(norm) == Some(norm)
      && norm != "" && norm[0] == '/'
      && Normal(Components(norm))
  {
    var cs := Components(path);
    ComponentsOfRooted(path);
    ComponentsNormal(path);
    ComponentsOfRender(cs);
    NormalizedHasNoNul(path);
    RenderIsRooted(cs);
  }

  // ---------------------------------------------------------------- containment is list prefix

  lemma {:induction false} JoinAppend(a: seq<string>, b: seq<string>)
    ensures Join(a + b) == Join(a) + Join(b)
  {
    if a == [] {
      assert a + b == b;
    } else {
      assert (a + b)[1..] == a[1..] + b;
      JoinAppend(a[1..], b);
    }
  }

  lemma RenderPrefix(rc: seq<string>, cc: seq<string>)
    requires Normal(rc) && Normal(cc) && rc != []
    ensures (Render(cc) == Render(rc)
             || (Render(rc) <= Render(cc) && |Render(cc)| > |Render(rc)| && Render(cc)[|Render(rc)|] == '/'))
            <==> rc <= cc
  {
    var root, cand := Join(rc), Render(cc);
    if rc <= cc {
      var rest := cc[|rc|..];
      assert rc + rest == cc;
      JoinAppend(rc, rest);
      if rest == [] {
        assert cand == root;
      } else {
        assert cand == root + Join(rest);
        assert Join(rest)[0] == '/';
      }
    }
    if cand == root {
      ComponentsOfRender(rc);
      ComponentsOfRender(cc);
    } else if root <= cand && |cand| > |root| && cand[|root|] == '/' {
      var u := cand[|root| + 1..];
      assert cand == root + "/" + u;
      PiecesAppend(root, u);
      PiecesOfJoin(rc);
      if cc == [] {
        assert false;
      } else {
        PiecesOfJoin(cc);
        assert [""] + cc == ([""] + rc) + Pieces(u);
        assert cc == ([""] + cc)[1..] == (([""] + rc) + Pieces(u))[1..] == rc + Pieces(u);
      }
    }
  }

  /** The meaning of containment: no `..` on either side, and the root's list is a prefix. */
  predicate Inside(rootPath: string, candidatePath: string) {
    && UP !in Components(rootPath)
    && UP !in Components(candidatePath)
    && Components(rootPath) <= Components(candidatePath)
  }

  lemma ContainsIsPrefix(rootPath: string, candidatePath: string)
    ensures Contains(rootPath, candidatePath).Some? <==> '\0' !in rootPath && '\0' !in candidatePath
    ensures Contains(rootPath, candidatePath).Some? ==>
      (Contains(rootPath, candidatePath).value <==> Inside(rootPath, candidatePath))
  {
    if '\0' !in rootPath && '\0' !in candidatePath {
      NormalizeMeaning(rootPath);
      NormalizeMeaning(candidatePath);
      var rc, cc := Components(rootPath), Components(candidatePath);
      if rc == [] {
        assert Render(rc) == "/";
      } else {
        RenderPrefix(rc, cc);
        assert Render(rc) != "/" by { ComponentsOfRender(rc); ComponentsOfRender([]); }
      }
    }
  }

  /** Containment is a partial order on normal forms without `..`. */
  lemma InsideIsPartialOrder(a: string, b: string, c: string)
    ensures Inside(a, b) && Inside(b, c) ==> Inside(a, c)
    ensures Inside(a, b) && Inside(b, a) && '\0' !in a && '\0' !in b ==> Normalized(a) == Normalized(b)
  {
    if Inside(a, b) && Inside(b, a) && '\0' !in a && '\0' !in b {
      assert Components(a) == Components(b);
      NormalizeMeaning(a);
      NormalizeMeaning(b);
    }
  }

  // ---------------------------------------------------------------- the loops of the source

  /** `std::getline` up to a slash: reads one piece starting at `from`. */
  method ReadPiece(path: string, from: nat) returns (piece: string, next: nat)
    requires from < |path|
    ensures from < next <= |path| + 1
    ensures '/' !in piece
    ensures next <= |path| ==> path[from..] == piece + "/" + path[next..]
    ensures next == |path| + 1 ==> path[from..] == piece
  {
    var at := from;
    while at < |path| && path[at] != '/'
      invariant from <= at <= |path|
      invariant '/' !in path[from..at]
    {
      at := at + 1;
    }
    piece := path[from..at];
    next := at + 1;
    if at < |path| {
      assert path[from..] == path[from..at] + [path[at]] + path[at + 1..];
    } else {
      assert path[from..] == path[from..at];
    }
  }

  method SplitComponents(path: string) returns (components: seq<string>)
    ensures components == Components(path)
  {
    components := [];
    var pos := 0;
    while pos < |path|
      invariant 0 <= pos <= |path| + 1
      invariant pos <= |path| ==> PushAll(components, Pieces(path[pos..])) == Components(path)
      invariant pos == |path| + 1 ==> components == Components(path)
      decreases |path| + 1 - pos
    {
      ghost var before := components;
      var component, next := ReadPiece(path, pos);
      if component == "" || component == "." {
      } else if component == UP {
        if components != [] && components[|components| - 1] != UP {
          components := components[..|components| - 1];
        } else {
          components := components + [UP];
        }
      } else {
        components := components + [component];
      }
      assert components == Push(before, component);
      PiecesOfComponent(component);
      if next <= |path| {
        PiecesAppend(component, path[next..]);
        assert ([component] + Pieces(path[next..]))[1..] == Pieces(path[next..]);
      } else {
        assert PushAll(before, [component]) == PushAll(components, []);
      }
      pos := next;
    }
    if pos == |path| {
      assert path[pos..] == "";
    }
  }

  method NormalizeVaultPath(path: string) returns (normal: Option<string>)
    ensures normal == Normalized(path)
  {
    if '\0' in path {
      return None;
    }
    var source := path;
    if source == "" {
      source := "/";
    }
    if source[0] != '/' {
      source := "/" + source;
    }
    var components := SplitComponents(source);
    if components == [] {
      return Some("/");
    }
    var out := "";
    for i := 0 to |components|
      invariant out == Join(components[..i])
    {
      JoinAppend(components[..i], [components[i]]);
      assert components[..i] + [components[i]] == components[..i + 1];
      out := out + ['/'];
      out := out + components[i];
      assert Join([components[i]]) == "/" + components[i] + "";
    }
    assert components[..|components|] == components;
    normal := Some(out);
  }
}
