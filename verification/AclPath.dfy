/** Grant paths (internal/bootstrap/rotation.go, bootstrap.go): PVE's normalize_path,
    and the grant list both ParseGrants and Run pass through it. */
module AclPath {
  import opened Common
  import opened Text

  /** The non-empty names between slashes. */
  function Segments(p: string): seq<string> {
    NonEmpty(Split(p, '/'))
  }

  predicate PathChar(c: char) {
    'a' <= c <= 'z' || 'A' <= c <= 'Z' || '0' <= c <= '9' || c == '.' || c == '_' || c == '/' || c == '-'
  }

  predicate Charset(p: string) {
    forall c :: c in p ==> PathChar(c)
  }

  /** Every run of slashes becomes one. */
  function CollapseSlashes(p: string): string {
    if |p| < 2 then p
    else if p[0] == '/' && p[1] == '/' then CollapseSlashes(p[1..])
    else [p[0]] + CollapseSlashes(p[1..])
  }

  function TrimSlash(p: string): string {
    if p != "" && p[|p| - 1] == '/' then p[..|p| - 1] else p
  }

  function Rooted(p: string): string {
    if p == "" || p[0] != '/' then "/" + p else p
  }

  function Normalize(p: string): Option<string> {
    if p == "" || p == "0" then None
    else
      var q := Rooted(TrimSlash(CollapseSlashes(p)));
      if Charset(q) then Some(q) else None
  }

  function Canonical(segments: seq<string>): string {
    "/" + Join(segments, '/')
  }

  lemma JoinGrows(c: char, parts: seq<string>)
    requires parts != []
    ensures Join([[c] + parts[0]] + parts[1..], '/') == [c] + Join(parts, '/')
  {
    var grown := [[c] + parts[0]] + parts[1..];
    assert grown[1..] == parts[1..];
    if |parts| > 1 {
      assert [c] + parts[0] + ['/'] + Join(parts[1..], '/') == [c] + (parts[0] + ['/'] + Join(parts[1..], '/'));
    }
  }

  function Slash(there: bool): string {
    if there then "/" else ""
  }

  /** A collapsed path is its segments joined, with at most one slash at either end. */
  predicate CollapsesToSegments(p: string)
    requires p != ""
  {
    var segments := Segments(p);
    if segments == [] then
      CollapseSlashes(p) == "/" && p[0] == '/' == p[|p| - 1]
    else
      CollapseSlashes(p) == Slash(p[0] == '/') + Join(segments, '/') + Slash(p[|p| - 1] == '/')
  }

  lemma CollapsedChar(p: string)
    requires |p| == 1
    ensures CollapsesToSegments(p)
  {
    assert p[1..] == "" && Split("", '/') == [""];
    assert [p[0]] + "" == p;
    if p[0] == '/' {
      assert Split(p, '/') == [""] + [""] && ([""] + [""])[1..] == [""];
      assert NonEmpty([""]) == [];
    } else {
      assert Split(p, '/') == [p] && [p][1..] == [];
      assert Slash(false) + p + Slash(false) == p;
    }
  }

  lemma CollapsedSlash(p: string)
    requires |p| > 1 && p[0] == '/' && CollapsesToSegments(p[1..])
    ensures CollapsesToSegments(p)
  {
    var rest := p[1..];
    var parts := Split(rest, '/');
    assert Split(p, '/') == [""] + parts;
    assert ([""] + parts)[1..] == parts;
    assert Segments(p) == Segments(rest);
    assert p[|p| - 1] == rest[|rest| - 1];
    if rest[0] != '/' {
      assert CollapseSlashes(p) == ['/'] + CollapseSlashes(rest);
    }
    var joined, end := Join(Segments(p), '/'), Slash(p[|p| - 1] == '/');
    assert ['/'] + (Slash(false) + joined + end) == Slash(true) + joined + end;
  }

  lemma CollapsedName(p: string)
    requires |p| > 1 && p[0] != '/' && CollapsesToSegments(p[1..])
    ensures CollapsesToSegments(p)
  {
    var rest := p[1..];
    var parts := Split(rest, '/');
    var head := [p[0]] + parts[0];
    assert Split(p, '/') == [head] + parts[1..];
    assert ([head] + parts[1..])[1..] == parts[1..];
    assert Segments(p) == [head] + NonEmpty(parts[1..]);
    var joined, end := Join(Segments(rest), '/'), Slash(p[|p| - 1] == '/');
    if rest[0] == '/' {
      assert parts[0] == "" && Segments(p)[1..] == Segments(rest);
      assert Join(Segments(p), '/') == if Segments(rest) == [] then [p[0]] else [p[0]] + ['/'] + joined;
      assert [p[0]] + (Slash(true) + joined + end) == Slash(false) + ([p[0]] + ['/'] + joined) + end;
      assert [p[0]] + "/" == Slash(false) + [p[0]] + Slash(true);
    } else {
      assert Segments(rest) == [parts[0]] + NonEmpty(parts[1..]);
      assert Segments(rest)[1..] == NonEmpty(parts[1..]);
      JoinGrows(p[0], Segments(rest));
      assert [p[0]] + (Slash(false) + joined + end) == Slash(false) + ([p[0]] + joined) + end;
    }
  }

  lemma {:induction false} Collapsed(p: string)
    requires p != ""
    ensures CollapsesToSegments(p)
  {
    if |p| == 1 {
      CollapsedChar(p);
    } else {
      Collapsed(p[1..]);
      if p[0] == '/' { CollapsedSlash(p); } else { CollapsedName(p); }
    }
  }

  lemma {:induction false} CollapseKeepsChars(p: string)
    ensures forall c :: c in CollapseSlashes(p) <==> c in p
  {
    if |p| >= 2 { CollapseKeepsChars(p[1..]); }
  }

  predicate Names(segments: seq<string>) {
    forall i :: 0 <= i < |segments| ==> segments[i] != "" && '/' !in segments[i]
  }

  lemma {:induction false} SegmentsAreNames(parts: seq<string>)
    requires forall i :: 0 <= i < |parts| ==> '/' !in parts[i]
    ensures Names(NonEmpty(parts))
  {
    if parts != [] { SegmentsAreNames(parts[1..]); }
  }

  lemma {:induction false} JoinEnds(segments: seq<string>)
    requires segments != [] && Names(segments)
    ensures Join(segments, '/') != ""
    ensures Join(segments, '/')[0] != '/' && Join(segments, '/')[|Join(segments, '/')| - 1] != '/'
  {
    if |segments| > 1 { JoinEnds(segments[1..]); }
  }

  lemma RootedTrim(lead: bool, body: string, trail: bool)
    requires body != "" && body[0] != '/' && body[|body| - 1] != '/'
    ensures Rooted(TrimSlash(Slash(lead) + body + Slash(trail))) == "/" + body
  {
    var start := Slash(lead) + body;
    assert start[|start| - 1] == body[|body| - 1];
    if trail {
      assert (start + "/")[..|start|] == start;
    } else {
      assert start + "" == start;
    }
    if !lead { assert start == body; }
  }

  lemma RootedKeepsCharset(q: string)
    ensures Charset(Rooted(TrimSlash(q))) <==> Charset(q)
  {
    var trimmed := TrimSlash(q);
    assert q == trimmed || q == trimmed + "/";
    assert Rooted(trimmed) == trimmed || Rooted(trimmed) == "/" + trimmed;
  }

  /** An accepted path's normal form is "/" and its segments: neither repeated, leading
      nor trailing slashes matter. And exactly the paths over PVE's charset, other than
      "" and "0", are accepted. */
  lemma NormalForm(p: string)
    ensures Normalize(p).Some? <==> p != "" && p != "0" && Charset(p)
    ensures Normalize(p).Some? ==> Normalize(p).value == Canonical(Segments(p))
  {
    if p == "" || p == "0" { return; }
    CollapseKeepsChars(p);
    RootedKeepsCharset(CollapseSlashes(p));
    Collapsed(p);
    SplitFree(p, '/');
    SegmentsAreNames(Split(p, '/'));
    var segments := Segments(p);
    if segments != [] {
      JoinEnds(segments);
      RootedTrim(p[0] == '/', Join(segments, '/'), p[|p| - 1] == '/');
    }
  }

  lemma {:induction false} NonEmptyIdentity(parts: seq<string>)
    requires forall i :: 0 <= i < |parts| ==> parts[i] != ""
    ensures NonEmpty(parts) == parts
  {
    if parts != [] {
      NonEmptyIdentity(parts[1..]);
    }
  }

  /** A segment list is read back from its canonical path. */
  lemma SegmentsOfCanonical(segments: seq<string>)
    requires Names(segments)
    ensures Segments(Canonical(segments)) == segments
  {
    var path := Canonical(segments);
    assert path[1..] == Join(segments, '/');
    assert Split(path, '/') == [""] + Split(Join(segments, '/'), '/');
    assert ([""] + Split(Join(segments, '/'), '/'))[1..] == Split(Join(segments, '/'), '/');
    if segments == [] {
      assert Join(segments, '/') == "" && Split("", '/') == [""];
      assert ([""] + [""])[1..] == [""] && [""][1..] == [];
      assert NonEmpty([""] + [""]) == [];
    } else {
      SplitJoin(segments, '/');
      NonEmptyIdentity(segments);
    }
  }

  /** Two accepted paths have one normal form exactly when they name the same segments. */
  lemma SamePathIffSameSegments(p: string, q: string)
    requires Normalize(p).Some? && Normalize(q).Some?
    ensures Normalize(p) == Normalize(q) <==> Segments(p) == Segments(q)
  {
    NormalForm(p);
    NormalForm(q);
    SplitFree(p, '/');
    SplitFree(q, '/');
    SegmentsAreNames(Split(p, '/'));
    SegmentsAreNames(Split(q, '/'));
    SegmentsOfCanonical(Segments(p));
    SegmentsOfCanonical(Segments(q));
  }

  lemma NormalizeIdempotent(p: string)
    requires Normalize(p).Some?
    ensures Normalize(Normalize(p).value) == Normalize(p)
  {
    var q := Normalize(p).value;
    NormalForm(p);
    NormalForm(q);
    SplitFree(p, '/');
    SegmentsAreNames(Split(p, '/'));
    SegmentsOfCanonical(Segments(p));
    assert q[0] == '/';
  }

  // ---- grant lists ----

  datatype Grant = Grant(path: string, role: string, privs: Option<seq<string>>, propagate: bool)

  datatype GrantError = InvalidPath(path: string) | InvalidGrants

  /** PVE's own rules, on a normalized path and on a whole list of grants. */
  datatype Rules = Rules(checkPath: string -> bool, checkGrants: seq<Grant> -> bool)

  function CheckedPath(p: string, rules: Rules): Option<string> {
    var n := Normalize(p);
    if n.None? || !rules.checkPath(n.value) then None else n
  }

  function NormalizeAll(gs: seq<Grant>, rules: Rules): Result<seq<Grant>, GrantError> {
    if gs == [] then Ok([])
    else
      var p := CheckedPath(gs[0].path, rules);
      if p.None? then Err(InvalidPath(gs[0].path))
      else
        match NormalizeAll(gs[1..], rules)
        case Err(e) => Err(e)
        case Ok(rest) => Ok([gs[0].(path := p.value)] + rest)
  }

  /** normalizeGrants, over any rules: the one list a run issues, checks and validates. */
  method NormalizeGrants(gs: seq<Grant>, rules: Rules) returns (r: Result<seq<Grant>, GrantError>)
    ensures r == Normalized(gs, rules)
  {
    var out: seq<Grant> := [];
    var i := 0;
    assert gs[0..] == gs;
    PrependNothing(NormalizeAll(gs, rules));
    while i < |gs|
      invariant 0 <= i <= |gs| && |out| == i
      invariant NormalizeAll(gs, rules) == Prepend(out, NormalizeAll(gs[i..], rules))
    {
      var p := CheckedPath(gs[i].path, rules);
      if p.None? { return Err(InvalidPath(gs[i].path)); }
      PrependStep(out, gs[i].(path := p.value), NormalizeAll(gs[i + 1..], rules));
      assert gs[i..][1..] == gs[i + 1..];
      out := out + [gs[i].(path := p.value)];
      i := i + 1;
    }
    assert gs[i..] == [];
    assert out + [] == out;
    if !rules.checkGrants(out) { return Err(InvalidGrants); }
    return Ok(out);
  }

  function Prepend(out: seq<Grant>, r: Result<seq<Grant>, GrantError>): Result<seq<Grant>, GrantError> {
    match r
    case Err(e) => Err(e)
    case Ok(rest) => Ok(out + rest)
  }

  lemma PrependNothing(r: Result<seq<Grant>, GrantError>)
    ensures Prepend([], r) == r
  {
    if r.Ok? { assert [] + r.value == r.value; }
  }

  lemma PrependStep(out: seq<Grant>, g: Grant, r: Result<seq<Grant>, GrantError>)
    ensures Prepend(out, Prepend([g], r)) == Prepend(out + [g], r)
  {
    if r.Ok? { assert out + ([g] + r.value) == (out + [g]) + r.value; }
  }

  function Normalized(gs: seq<Grant>, rules: Rules): Result<seq<Grant>, GrantError> {
    match NormalizeAll(gs, rules)
    case Err(e) => Err(e)
    case Ok(out) => if rules.checkGrants(out) then Ok(out) else Err(InvalidGrants)
  }

  /** The grant under the normal form of its path, which PVE's own rule accepts. */
  ghost predicate Respelled(g: Grant, out: Grant, rules: Rules) {
    && Charset(g.path) && g.path != "" && g.path != "0"
    && out == g.(path := Canonical(Segments(g.path))) && rules.checkPath(out.path)
  }

  ghost predicate Refused(path: string, rules: Rules) {
    !Charset(path) || path == "" || path == "0" || !rules.checkPath(Canonical(Segments(path)))
  }

  lemma {:induction false} NormalizeAllIs(gs: seq<Grant>, rules: Rules)
    ensures match NormalizeAll(gs, rules)
            case Ok(out) => |out| == |gs| && forall i :: 0 <= i < |gs| ==> Respelled(gs[i], out[i], rules)
            case Err(e) => e.InvalidPath? && exists i :: 0 <= i < |gs| && gs[i].path == e.path && Refused(e.path, rules)
  {
    if gs != [] {
      NormalForm(gs[0].path);
      NormalizeAllIs(gs[1..], rules);
      assert gs == [gs[0]] + gs[1..];
      match NormalizeAll(gs[1..], rules) {
        case Ok(rest) =>
        case Err(e) =>
          var i :| 0 <= i < |gs[1..]| && gs[1..][i].path == e.path && Refused(e.path, rules);
          assert gs[i + 1].path == e.path;
      }
    }
  }

  /** A list is accepted exactly when every path is, and PVE's own rule accepts the whole
      list of grants under their normal forms, which is then the result. */
  lemma NormalizedIs(gs: seq<Grant>, rules: Rules)
    ensures match Normalized(gs, rules)
            case Ok(out) =>
              && |out| == |gs| && (forall i :: 0 <= i < |gs| ==> Respelled(gs[i], out[i], rules))
              && rules.checkGrants(out)
            case Err(InvalidPath(path)) =>
              exists i :: 0 <= i < |gs| && gs[i].path == path && Refused(path, rules)
            case Err(InvalidGrants) =>
              exists out: seq<Grant> :: |out| == |gs| && !rules.checkGrants(out)
                && forall i :: 0 <= i < |gs| ==> Respelled(gs[i], out[i], rules)
  {
    NormalizeAllIs(gs, rules);
  }

  lemma {:induction false} NormalizeAllFixed(gs: seq<Grant>, rules: Rules)
    requires NormalizeAll(gs, rules).Ok?
    ensures NormalizeAll(NormalizeAll(gs, rules).value, rules) == NormalizeAll(gs, rules)
  {
    if gs != [] {
      NormalizeAllFixed(gs[1..], rules);
      NormalizeIdempotent(gs[0].path);
      var out := NormalizeAll(gs, rules).value;
      assert out[1..] == NormalizeAll(gs[1..], rules).value;
      assert out[0].(path := out[0].path) == out[0];
    }
  }

  /** Run's own pass over the list ParseGrants produced accepts it and changes nothing. */
  lemma RenormalizingChangesNothing(gs: seq<Grant>, rules: Rules)
    requires Normalized(gs, rules).Ok?
    ensures Normalized(Normalized(gs, rules).value, rules) == Normalized(gs, rules)
  {
    NormalizeAllFixed(gs, rules);
  }
}
