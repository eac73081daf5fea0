/** Scope decisions and the resolution of a requested path to an entry inside a share. */
module TargetResolver {
  import opened Wrappers
  import opened ShareRecords
  import opened VaultPath

  datatype PathMode = VaultRelative | ShareRelative

  datatype ScopeReason =
    | Allowed | VaultMismatch | PathEscape | OutsideScope | OperationNotGranted | InvalidMkdirTarget

  datatype ScopeDecision = ScopeDecision(reason: ScopeReason, path: string)

  datatype PathError =
    | PathRequired | InvalidByte | EscapesRoot | PrincipalNotResolved | ScopeDenied(reason: ScopeReason)
    | FileTargetHasNoDescendants | RootNotFound | RootVaultMismatch | RootMoved | RootTypeMismatch
    | TargetNotFound | TargetVaultMismatch | TargetPathMismatch | TargetEscapes | TargetTypeMismatch
    | NotADirectory | MissingEntry | CrossVaultEntry | EntryOutsideRoot | RbacDenied

  datatype Entry = Entry(id: nat, vaultId: Option<int>, path: string, isDirectory: bool)

  /** The entry tables a resolver reads. A child row can be missing. */
  datatype Entries = Entries(
    byId: map<nat, Entry>,
    byVaultPath: map<(nat, string), Entry>,
    children: map<nat, seq<Option<Entry>>>)

  datatype Request = Request(
    path: string,
    operation: Operation,
    mode: PathMode,
    expectedType: Option<TargetType>,
    vaultId: Option<nat>)

  datatype Target = Target(
    vaultId: nat,
    rootPath: string,
    requestedPath: string,
    vaultPath: string,
    sharePath: string,
    operation: Operation,
    targetType: TargetType,
    rootEntry: Entry,
    entry: Entry)

  // ---------------------------------------------------------------- scope decision

  function Authorize(p: Principal, vaultId: nat, path: string, op: Operation, targetType: Option<TargetType>)
    : Result<ScopeDecision, PathError>
  {
    match Normalized(path)
    case None => Err(InvalidByte)
    case Some(norm) =>
      if !p.HasVault(vaultId) then Ok(ScopeDecision(VaultMismatch, norm))
      else if Escapes(norm) then Ok(ScopeDecision(PathEscape, norm))
      else match Contains(p.rootPath, norm)
        case None => Err(InvalidByte)
        case Some(inside) =>
          if !inside then Ok(ScopeDecision(OutsideScope, norm))
          else if !p.grant.Allows(op) then Ok(ScopeDecision(OperationNotGranted, norm))
          else if !MkdirTargetAllowed(p, op, targetType) then Ok(ScopeDecision(InvalidMkdirTarget, norm))
          else Ok(ScopeDecision(Allowed, norm))
  }

  predicate MkdirTargetAllowed(p: Principal, op: Operation, targetType: Option<TargetType>) {
    op == Mkdir ==> targetType.GetOr(p.grant.targetType) == DirectoryTarget
  }

  /** A scope decision allows exactly the granted operations on paths inside the principal's root. */
  lemma AuthorizeExact(p: Principal, vaultId: nat, path: string, op: Operation, targetType: Option<TargetType>)
    requires '\0' !in path && '\0' !in p.rootPath
    ensures var d := Authorize(p, vaultId, path, op, targetType);
      && d.Ok?
      && d.value.path == Render(Components(path))
      && (d.value.reason == Allowed <==>
            && vaultId == p.vaultId
            && Inside(p.rootPath, path)
            && op in p.grant.allowedOps
            && (op == Mkdir ==> targetType.GetOr(p.grant.targetType) == DirectoryTarget))
  {
    NormalizeMeaning(path);
    NormalizedHasNoNul(path);
    ContainsIsPrefix(p.rootPath, Normalized(path).value);
  }

  // ---------------------------------------------------------------- request paths

  function StrictPieces(ps: seq<string>): Result<seq<string>, PathError> {
    if ps == [] then Ok([])
    else if ps[0] == "" || ps[0] == "." then StrictPieces(ps[1..])
    else if ps[0] == UP then Err(EscapesRoot)
    else
      var rest :- StrictPieces(ps[1..]);
      Ok([ps[0]] + rest)
  }

  /** Components of a request path; unlike a root path, any `..` is refused. */
  function StrictComponents(path: string): Result<seq<string>, PathError> {
    if path == "" then Err(PathRequired)
    else if '\0' in path then Err(InvalidByte)
    else StrictPieces(Pieces(path))
  }

  function NormalizeRequested(path: string): Result<string, PathError> {
    var components :- StrictComponents(path);
    Ok(Render(components))
  }

  function JoinRootAndShare(rootPath: string, sharePath: string): Result<string, PathError> {
    match Normalized(rootPath)
    case None => Err(InvalidByte)
    case Some(root) =>
      var share :- NormalizeRequested(sharePath);
      if share == "/" then Ok(root)
      else if root == "/" then Ok(share)
      else Ok(root + share)
  }

  predicate ValidPrincipal(p: Principal) {
    p.vaultId != 0 && p.rootEntryId != 0
  }

  function ToVaultPath(p: Principal, path: string, mode: PathMode): Result<string, PathError> {
    if !ValidPrincipal(p) then Err(PrincipalNotResolved)
    else if mode == ShareRelative then JoinRootAndShare(p.rootPath, path)
    else NormalizeRequested(path)
  }

  function ToSharePath(p: Principal, vaultPath: string): Result<string, PathError> {
    match Normalized(p.rootPath)
    case None => Err(InvalidByte)
    case Some(root) =>
      var candidate :- NormalizeRequested(vaultPath);
      match Contains(root, candidate)
      case None => Err(InvalidByte)
      case Some(inside) =>
        if !inside then Err(TargetEscapes)
        else if candidate == root then Ok("/")
        else if root == "/" then Ok(candidate)
        else if |root| <= |candidate| then Ok(candidate[|root|..])
        else Err(TargetEscapes)   // `substr` past the end throws
  }

  lemma {:induction false} StrictPiecesAgree(ps: seq<string>, acc: seq<string>)
    requires forall p :: p in ps ==> '/' !in p
    ensures StrictPieces(ps).Ok? <==> UP !in ps
    ensures StrictPieces(ps).Ok? ==>
      && (forall c :: c in StrictPieces(ps).value ==> Clean(c) && c != UP)
      && PushAll(acc, ps) == acc + StrictPieces(ps).value
    decreases |ps|
  {
    if ps == [] {
      assert acc + [] == acc;
    } else {
      assert ps[0] in ps;
      assert ps == [ps[0]] + ps[1..];
      StrictPiecesAgree(ps[1..], Push(acc, ps[0]));
      if StrictPieces(ps).Ok? && ps[0] != "" && ps[0] != "." {
        assert (acc + [ps[0]]) + StrictPieces(ps[1..]).value == acc + StrictPieces(ps).value;
      }
    }
  }

  /** An accepted request means its component list, which carries no `..`. */
  lemma RequestMeaning(path: string)
    ensures StrictComponents(path).Ok? <==> path != "" && '\0' !in path && UP !in Pieces(path)
    ensures StrictComponents(path).Ok? ==>
      && StrictComponents(path).value == Components(path)
      && Normal(Components(path)) && UP !in Components(path)
  {
    if path != "" && '\0' !in path {
      StrictPiecesAgree(Pieces(path), []);
      ComponentsNormal(path);
      if StrictComponents(path).Ok? {
        assert [] + StrictComponents(path).value == StrictComponents(path).value;
      }
    }
  }

  lemma RenderedRequest(cs: seq<string>)
    requires Normal(cs) && UP !in cs
    requires forall c :: c in cs ==> '\0' !in c
    ensures NormalizeRequested(Render(cs)) == Ok(Render(cs))
    ensures Normalized(Render(cs)) == Some(Render(cs))
    ensures Components(Render(cs)) == cs
  {
    RenderIsRooted(cs);
    ComponentsOfRender(cs);
    NoNulInJoin(cs);
    if cs == [] {
      assert Pieces("/") == ["", ""];
    } else {
      PiecesOfJoin(cs);
    }
    RequestMeaning(Render(cs));
    NormalizeMeaning(Render(cs));
  }

  lemma NormalAppend(a: seq<string>, b: seq<string>)
    requires Normal(a) && Normal(b) && UP !in b
    ensures Normal(a + b)
  {
    assert forall k :: |a| <= k < |a + b| ==> (a + b)[k] in b;
  }

  lemma JoinedMeaning(rootPath: string, sharePath: string)
    requires '\0' !in rootPath && StrictComponents(sharePath).Ok?
    ensures JoinRootAndShare(rootPath, sharePath) == Ok(Render(Components(rootPath) + Components(sharePath)))
    ensures Normal(Components(rootPath) + Components(sharePath))
    ensures forall c :: c in Components(rootPath) + Components(sharePath) ==> '\0' !in c
  {
    var rc, qc := Components(rootPath), Components(sharePath);
    RequestMeaning(sharePath);
    NormalizeMeaning(rootPath);
    ComponentsNormal(rootPath);
    NormalAppend(rc, qc);
    NoNulInPieces(rootPath);
    NoNulInPushAll([], Pieces(rootPath));
    NoNulInPieces(sharePath);
    NoNulInPushAll([], Pieces(sharePath));
    ComponentsOfRender(rc);
    ComponentsOfRender(qc);
    ComponentsOfRender([]);
    JoinAppend(rc, qc);
    assert rc == [] ==> rc + qc == qc;
    assert qc == [] ==> rc + qc == rc;
  }

  /**
   Mapping a share-relative request into the vault lands inside the root exactly when the
   root has no `..` of its own, and mapping the result back gives the normalised request.
   */
  lemma ShareVaultRoundTrip(p: Principal, path: string)
    requires ValidPrincipal(p) && '\0' !in p.rootPath
    requires NormalizeRequested(path).Ok?
    ensures var v := ToVaultPath(p, path, ShareRelative);
      && v.Ok?
      && (Contains(p.rootPath, v.value) == Some(true) <==> UP !in Components(p.rootPath))
      && (UP !in Components(p.rootPath) ==> ToSharePath(p, v.value) == NormalizeRequested(path))
      && (UP in Components(p.rootPath) ==> ToSharePath(p, v.value) == Err(EscapesRoot))
  {
    var rc, qc := Components(p.rootPath), Components(path);
    JoinedMeaning(p.rootPath, path);
    var v := Render(rc + qc);
    RequestMeaning(path);
    ComponentsOfRender(rc + qc);
    NoNulInJoin(rc + qc);
    assert '\0' !in v;
    ContainsIsPrefix(p.rootPath, v);
    NormalizeMeaning(p.rootPath);
    NormalizedHasNoNul(p.rootPath);
    var root := Normalized(p.rootPath).value;
    ContainsIsPrefix(root, v);
    assert rc <= rc + qc;
    RenderIsRooted(rc + qc);
    if UP !in rc {
      RenderedRequest(rc + qc);
      assert NormalizeRequested(v) == Ok(v);
      JoinAppend(rc, qc);
      ComponentsOfRender(rc);
      ComponentsOfRender(qc);
      ComponentsOfRender([]);
      if qc == [] {
        assert rc + qc == rc;
      } else if rc == [] {
        assert rc + qc == qc;
        assert root == "/";
        assert v != root;
      } else {
        assert v == Join(rc) + Join(qc);
        assert |Join(qc)| > 0;
      }
    } else {
      assert UP in rc + qc;
      RequestMeaning(v);
      StrictPiecesAgree(Pieces(v), []);
      PiecesOfJoin(rc + qc);
      assert UP in Pieces(v);
      StrictPiecesError(Pieces(v));
    }
  }

  lemma {:induction false} StrictPiecesError(ps: seq<string>)
    requires UP in ps
    ensures StrictPieces(ps) == Err(EscapesRoot)
  {
    assert ps == [ps[0]] + ps[1..];
    if ps[0] != UP {
      StrictPiecesError(ps[1..]);
    }
  }

  /** Taking a root's string off the front of a path below it leaves the rest of its components. */
  lemma StripRoot(rc: seq<string>, vc: seq<string>)
    requires Normal(rc) && Normal(vc) && rc <= vc
    ensures Render(vc) == Render(rc) ==> Render(vc[|rc|..]) == "/"
    ensures Render(rc) == "/" ==> Render(vc[|rc|..]) == Render(vc)
    ensures Render(vc) != Render(rc) && Render(rc) != "/" ==>
      |Render(rc)| <= |Render(vc)| && Render(vc[|rc|..]) == Render(vc)[|Render(rc)|..]
  {
    hide Components;
    var qc := vc[|rc|..];
    assert rc + qc == vc;
    ComponentsOfRender(rc);
    ComponentsOfRender(vc);
    ComponentsOfRender([]);
    JoinAppend(rc, qc);
    if Render(vc) == Render(rc) {
      assert qc == [];
    } else if Render(rc) == "/" {
      assert rc == [];
    } else {
      hide Join;
      assert rc != [] && qc != [] && Render(vc) == Join(rc) + Join(qc);
    }
  }

  lemma SharePathMeaning(p: Principal, vaultPath: string)
    requires ToSharePath(p, vaultPath).Ok?
    ensures var rc, vc := Components(p.rootPath), Components(vaultPath);
      rc <= vc && ToSharePath(p, vaultPath).value == Render(vc[|rc|..])
  {
    hide Pieces, StrictPieces, StringContains, Components, Render, Contains;
    var rc, vc := Components(p.rootPath), Components(vaultPath);
    var root, candidate := Normalized(p.rootPath).value, NormalizeRequested(vaultPath).value;
    NormalizeMeaning(p.rootPath);
    RequestMeaning(vaultPath);
    ComponentsOfRender(vc);
    assert candidate == Render(vc) && root == Render(rc);
    ContainsIsPrefix(root, candidate);
    StripRoot(rc, vc);
  }

  /** The other direction: a vault path inside the root comes back from its share path. */
  lemma VaultShareRoundTrip(p: Principal, vaultPath: string)
    requires ValidPrincipal(p)
    requires ToSharePath(p, vaultPath).Ok?
    ensures ToVaultPath(p, ToSharePath(p, vaultPath).value, ShareRelative) == NormalizeRequested(vaultPath)
  {
    hide Pieces, PushAll, Join, StrictPieces, StringContains, JoinRootAndShare;
    var rc, vc := Components(p.rootPath), Components(vaultPath);
    SharePathMeaning(p, vaultPath);
    RequestMeaning(vaultPath);
    var qc := vc[|rc|..];
    assert rc + qc == vc;
    NoNulInPieces(vaultPath);
    NoNulInPushAll([], Pieces(vaultPath));
    assert forall c :: c in qc ==> c in vc;
    assert Normal(qc) by {
      assert forall i :: 0 <= i < |qc| ==> qc[i] == vc[|rc| + i];
    }
    RenderedRequest(qc);
    RequestMeaning(Render(qc));
    JoinedMeaning(p.rootPath, Render(qc));
  }

  // ---------------------------------------------------------------- the loops of the source

  /** What the split gives once `acc` is collected and `ps` is still to be read. */
  ghost function Resume(acc: seq<string>, ps: seq<string>): Result<seq<string>, PathError> {
    if StrictPieces(ps).Ok? then Ok(acc + StrictPieces(ps).value) else StrictPieces(ps)
  }

  lemma ResumeStep(acc: seq<string>, piece: string, rest: seq<string>)
    ensures Resume(acc, [piece] + rest) ==
      if piece == "" || piece == "." then Resume(acc, rest)
      else if piece == UP then Err(EscapesRoot)
      else Resume(acc + [piece], rest)
  {
    var ps := [piece] + rest;
    assert ps[0] == piece && ps[1..] == rest;
    if StrictPieces(ps).Ok? && piece != "" && piece != "." {
      assert acc + ([piece] + StrictPieces(rest).value) == (acc + [piece]) + StrictPieces(rest).value;
    }
  }

  method SplitStrict(path: string) returns (r: Result<seq<string>, PathError>)
    ensures r == StrictComponents(path)
  {
    if path == "" {
      return Err(PathRequired);
    }
    if '\0' in path {
      return Err(InvalidByte);
    }
    var components: seq<string> := [];
    var pos := 0;
    ghost var goal := StrictPieces(Pieces(path));
    assert goal.Ok? ==> [] + goal.value == goal.value;
    while pos < |path|
      invariant 0 <= pos <= |path| + 1
      invariant pos <= |path| ==> Resume(components, Pieces(path[pos..])) == goal
      invariant pos == |path| + 1 ==> goal == Ok(components)
      decreases |path| + 1 - pos
    {
      var component, next := ReadPiece(path, pos);
      ghost var rest := RemainingPieces(path, pos, component, next);
      ResumeStep(components, component, rest);
      if component == "" || component == "." {
      } else if component == UP {
        return Err(EscapesRoot);
      } else {
        components := components + [component];
      }
      assert components + [] == components;
      pos := next;
    }
    if pos == |path| {
      assert path[pos..] == "" && Pieces("") == [""] + [];
      ResumeStep(components, "", []);
      assert components + [] == components;
    }
    r := Ok(components);
  }

  lemma RemainingPieces(path: string, pos: nat, piece: string, next: nat) returns (rest: seq<string>)
    requires pos < |path| && pos < next <= |path| + 1 && '/' !in piece
    requires next <= |path| ==> path[pos..] == piece + "/" + path[next..]
    requires next == |path| + 1 ==> path[pos..] == piece
    ensures rest == if next <= |path| then Pieces(path[next..]) else []
    ensures Pieces(path[pos..]) == [piece] + rest
  {
    PiecesOfComponent(piece);
    rest := if next <= |path| then Pieces(path[next..]) else [];
    if next <= |path| {
      PiecesAppend(piece, path[next..]);
    }
  }

  method AssembleAbsolutePath(components: seq<string>) returns (out: string)
    ensures out == Render(components)
  {
    if components == [] {
      return "/";
    }
    out := "";
    for i := 0 to |components|
      invariant out == Join(components[..i])
    {
      JoinAppend(components[..i], [components[i]]);
      assert components[..i] + [components[i]] == components[..i + 1];
      out := out + ['/'];
      out := out + components[i];
      assert Join([components[i]]) == "/" + components[i] + "";
    }
    assert components[..|components|] == components;
  }

  method NormalizeRequestedPath(path: string) returns (r: Result<string, PathError>)
    ensures r == NormalizeRequested(path)
  {
    var components := SplitStrict(path);
    if components.Err? {
      return Err(components.error);
    }
    var out := AssembleAbsolutePath(components.value);
    r := Ok(out);
  }

  // ---------------------------------------------------------------- resolving a request

  const INT32_LIMIT := 0x8000_0000
  const UINT32_SPAN := 0x1_0000_0000

  /** `static_cast<int32_t>` of an unsigned 32-bit value. */
  function ToInt32(n: nat): int {
    var low := n % UINT32_SPAN;
    if low < INT32_LIMIT then low else low - UINT32_SPAN
  }

  predicate EntryHasVault(e: Entry, vaultId: nat) {
    e.vaultId == Some(ToInt32(vaultId))
  }

  function TypeOf(e: Entry): TargetType {
    if e.isDirectory then DirectoryTarget else FileTarget
  }

  /** `rbacAllows` is the answer of the role policy, which is not part of this model. */
  function Resolve(entries: Entries, p: Principal, req: Request, rbacAllows: Target -> bool)
    : Result<Target, PathError>
  {
    if !ValidPrincipal(p) then Err(PrincipalNotResolved)
    else
      var vaultId := req.vaultId.GetOr(p.vaultId);
      var vaultPath :- ToVaultPath(p, req.path, req.mode);
      var scope :- Authorize(p, vaultId, vaultPath, req.operation, req.expectedType);
      if scope.reason != Allowed then Err(ScopeDenied(scope.reason))
      else if p.grant.targetType == FileTarget && Some(scope.path) != Normalized(p.rootPath) then
        Err(FileTargetHasNoDescendants)
      else if p.rootEntryId !in entries.byId then Err(RootNotFound)
      else
        var rootEntry := entries.byId[p.rootEntryId];
        if !EntryHasVault(rootEntry, p.vaultId) then Err(RootVaultMismatch)
        else if Normalized(rootEntry.path).None? then Err(InvalidByte)
        else if Normalized(rootEntry.path) != Normalized(p.rootPath) then Err(RootMoved)
        else if TypeOf(rootEntry) != p.grant.targetType then Err(RootTypeMismatch)
        else if (vaultId, scope.path) !in entries.byVaultPath then Err(TargetNotFound)
        else
          var entry := entries.byVaultPath[(vaultId, scope.path)];
          if !EntryHasVault(entry, vaultId) then Err(TargetVaultMismatch)
          else if Normalized(entry.path).None? then Err(InvalidByte)
          else if Normalized(entry.path) != Some(scope.path) then Err(TargetPathMismatch)
          else if Contains(p.rootPath, entry.path) != Some(true) then Err(TargetEscapes)
          else if req.expectedType.Some? && TypeOf(entry) != req.expectedType.value then Err(TargetTypeMismatch)
          else if req.operation == ListDir && TypeOf(entry) != DirectoryTarget then Err(NotADirectory)
          else
            var requested :- NormalizeRequested(req.path);
            var sharePath :- ToSharePath(p, scope.path);
            var target := Target(vaultId, Normalized(p.rootPath).GetOr("/"), requested, scope.path, sharePath,
                                 req.operation, TypeOf(entry), rootEntry, entry);
            if !rbacAllows(target) then Err(RbacDenied) else Ok(target)
  }

  /**
   Whatever resolves lies inside the principal's root and vault, was granted, passed the role
   policy, and names the very entry stored under the resolved path.
   */
  lemma ResolveIsScoped(entries: Entries, p: Principal, req: Request, rbacAllows: Target -> bool)
    requires Resolve(entries, p, req, rbacAllows).Ok?
    ensures var t := Resolve(entries, p, req, rbacAllows).value;
      && t.vaultId == p.vaultId
      && Inside(p.rootPath, t.entry.path)
      && t.vaultPath == Render(Components(t.entry.path))
      && t.entry.vaultId == Some(ToInt32(p.vaultId))
      && (t.vaultId, t.vaultPath) in entries.byVaultPath && entries.byVaultPath[(t.vaultId, t.vaultPath)] == t.entry
      && req.operation in p.grant.allowedOps
      && (p.grant.targetType == FileTarget ==> Components(t.entry.path) == Components(p.rootPath))
      && Components(t.rootEntry.path) == Components(p.rootPath)
      && (req.mode == ShareRelative ==> t.sharePath == t.requestedPath)
      && (req.mode == VaultRelative ==> t.vaultPath == t.requestedPath)
      && rbacAllows(t)
  {
    hide Pieces, PushAll, Join, StrictPieces, StringContains, JoinRootAndShare;
    var t := Resolve(entries, p, req, rbacAllows).value;
    var vaultPath := ToVaultPath(p, req.path, req.mode).value;
    assert Normalized(p.rootPath).Some?;
    NormalizeMeaning(p.rootPath);
    NormalizeMeaning(vaultPath);
    NormalizeMeaning(t.entry.path);
    NormalizeMeaning(t.rootEntry.path);
    AuthorizeExact(p, t.vaultId, vaultPath, req.operation, req.expectedType);
    ContainsIsPrefix(p.rootPath, t.entry.path);
    if req.mode == ShareRelative {
      RequestMeaning(req.path);
      assert NormalizeRequested(req.path).Ok?;
      ShareVaultRoundTrip(p, req.path);
      JoinedMeaning(p.rootPath, req.path);
      ComponentsOfRender(Components(p.rootPath) + Components(req.path));
      assert t.vaultPath == vaultPath;
    } else {
      RequestMeaning(req.path);
      ComponentsOfRender(Components(req.path));
      assert t.vaultPath == vaultPath;
    }
  }

  lemma NothingIsNotListable(p: Principal, vaultId: nat)
    ensures !Listable(p, vaultId, None)
  {
  }

  lemma ListableExactly(p: Principal, vaultId: nat, e: Entry)
    ensures Listable(p, vaultId, Some(e)) <==> EntryHasVault(e, vaultId) && Contains(p.rootPath, e.path) == Some(true)
  {
    ContainsIsPrefix(p.rootPath, e.path);
  }

  /** The children of a resolved directory, or the first defect found among them. */
  method ListChildren(entries: Entries, p: Principal, target: Target) returns (r: Result<seq<Entry>, PathError>)
    ensures target.targetType != DirectoryTarget ==> r == Err(NotADirectory)
    ensures target.targetType == DirectoryTarget ==>
      var rows := if target.entry.id in entries.children then entries.children[target.entry.id] else [];
      && (r.Ok? <==> forall i :: 0 <= i < |rows| ==> Listable(p, target.vaultId, rows[i]))
      && (r.Ok? ==> |r.value| == |rows| && forall i :: 0 <= i < |rows| ==> rows[i] == Some(r.value[i]))
  {
    hide Listable, Contains, EntryHasVault;
    if target.targetType != DirectoryTarget {
      return Err(NotADirectory);
    }
    var rows := if target.entry.id in entries.children then entries.children[target.entry.id] else [];
    var out: seq<Entry> := [];
    for i := 0 to |rows|
      invariant |out| == i
      invariant forall j :: 0 <= j < i ==> Listable(p, target.vaultId, rows[j]) && rows[j] == Some(out[j])
    {
      if rows[i].None? {
        NothingIsNotListable(p, target.vaultId);
        return Err(MissingEntry);
      }
      var entry := rows[i].value;
      ListableExactly(p, target.vaultId, entry);
      if !EntryHasVault(entry, target.vaultId) {
        return Err(CrossVaultEntry);
      }
      var inside := Contains(p.rootPath, entry.path);
      if inside.None? {
        return Err(InvalidByte);
      }
      if !inside.value {
        return Err(EntryOutsideRoot);
      }
      out := out + [entry];
    }
    r := Ok(out);
  }

  /** A child row the listing may return: present, in the vault, and inside the share root. */
  predicate Listable(p: Principal, vaultId: nat, row: Option<Entry>) {
    && row.Some?
    && EntryHasVault(row.value, vaultId)
    && '\0' !in p.rootPath && '\0' !in row.value.path
    && Inside(p.rootPath, row.value.path)
  }
}
