/** The content toggle (internal/idempotent/storagecontent.go): a digest-guarded
    read-modify-write of one field of the cluster-wide storage.cfg, while anyone else may
    rewrite that file between any two calls. */
module StorageContent {
  import opened Common
  import opened Text
  import opened Order
  import Engine

  // ---- the remote file ----

  /** storage.cfg: this storage's fields, and everything else in the file. */
  datatype Config = Config(fields: map<string, string>, others: nat)

  /** What happens around one call: someone rewrites the file just before it; the call
      gets no answer; a write without an answer took effect; PVE refuses; PVE answers a
      write it did not store; PVE changes further fields with it; the read carries no
      digest; the write's task fails. */
  datatype Weather = Weather(
    outside: Option<Config>, lost: bool, applied: bool, refused: bool, ignored: bool,
    stray: map<string, string>, noDigest: bool, taskFails: bool)

  /** Every fault and every interleaving is one weather; the digest is PVE's hash of the
      whole file. */
  datatype World = World(weather: nat -> Weather, digestOf: Config -> string)

  ghost predicate GoodDigest(w: World) {
    && (forall c: Config :: w.digestOf(c) != "")
    && (forall c: Config, d: Config :: w.digestOf(c) == w.digestOf(d) ==> c == d)
  }

  /** What the remote did: answered a read, of the file as it then was, or let a write take
      effect. */
  datatype Event = Got(seen: Config) | Put(before: Config, after: Config)

  /** The file, the calls made so far, and the remote's own record of them. */
  datatype Remote = Remote(cfg: Config, clock: nat, log: seq<Event>)

  datatype PutReply = Done | DigestConflict | PutFailed

  // ---- the op's own types ----

  datatype Snapshot = Snapshot(content: set<string>, digest: string, fields: map<string, string>)

  /** The remote, and the op's own field. */
  datatype State = State(remote: Remote, snapshot: Option<Snapshot>)

  const VALID_CONTENT_TYPES := {"images", "rootdir", "iso", "vztmpl", "backup", "snippets", "import"}

  // ---- content lists ----

  /** Not changed by trimming, not empty, no comma: what a parsed content type is. */
  predicate Plain(t: string) {
    t != "" && ',' !in t && !Space(t[0]) && !Space(t[|t| - 1])
  }

  function TypesIn(parts: seq<string>): set<string> {
    if parts == [] then {}
    else (if Trim(parts[0]) == "" then {} else {Trim(parts[0])}) + TypesIn(parts[1..])
  }

  function ContentTypes(list: string): set<string> {
    TypesIn(Split(list, ','))
  }

  function ContentOf(fields: map<string, string>): set<string> {
    if "content" in fields then ContentTypes(fields["content"]) else {}
  }

  ghost function ContentListString(types: set<string>): string {
    Join(SortedStrings(types), ',')
  }

  lemma {:induction false} TypesInPlain(parts: seq<string>)
    requires forall i :: 0 <= i < |parts| ==> ',' !in parts[i]
    ensures forall t :: t in TypesIn(parts) ==> Plain(t)
  {
    if parts != [] {
      TypesInPlain(parts[1..]);
      TrimLeftPlain(parts[0]);
      TrimRightPlain(TrimLeft(parts[0]));
    }
  }

  lemma {:induction false} TypesInOfPlain(parts: seq<string>)
    requires forall i :: 0 <= i < |parts| ==> Plain(parts[i])
    ensures TypesIn(parts) == set t | t in parts
  {
    if parts != [] {
      TypesInOfPlain(parts[1..]);
      assert parts == [parts[0]] + parts[1..];
      assert Trim(parts[0]) == parts[0];
    }
  }

  /** The types of a list are its parts, without the white space around each, and without the
      empty ones. */
  lemma ContentTypesAre(list: string, t: string)
    ensures t in ContentTypes(list) <==> t != "" && exists parts: seq<string>, i: nat ::
        i < |parts| && list == Join(parts, ',') && (forall p :: p in parts ==> ',' !in p) && TrimsTo(parts[i], t)
  {
    var split := Split(list, ',');
    JoinSplit(list, ',');
    SplitFree(list, ',');
    if t in ContentTypes(list) {
      var i := TypeFrom(split, t);
      assert list == Join(split, ',') && TrimsTo(split[i], t);
    }
    if t != "" && exists parts: seq<string>, i: nat ::
        i < |parts| && list == Join(parts, ',') && (forall p :: p in parts ==> ',' !in p) && TrimsTo(parts[i], t) {
      var parts: seq<string>, i: nat :|
        i < |parts| && list == Join(parts, ',') && (forall p :: p in parts ==> ',' !in p) && TrimsTo(parts[i], t);
      SplitJoin(parts, ',');
      TypeInto(parts, i, t);
    }
  }

  /** t, with white space around it and none at its ends. */
  ghost predicate TrimsTo(part: string, t: string) {
    && (t != "" ==> !Space(t[0]) && !Space(t[|t| - 1]))
    && exists pre, post :: part == pre + t + post && Blank(pre) && Blank(post)
  }

  lemma {:induction false} TypeFrom(parts: seq<string>, t: string) returns (i: nat)
    requires t in TypesIn(parts)
    ensures i < |parts| && t != "" && TrimsTo(parts[i], t)
  {
    if t == Trim(parts[0]) && t != "" {
      TrimLeftPlain(parts[0]);
      TrimRightPlain(TrimLeft(parts[0]));
      var pre, post := TrimParts(parts[0]);
      assert parts[0] == pre + t + post;
      return 0;
    }
    i := TypeFrom(parts[1..], t);
    i := i + 1;
  }

  lemma {:induction false} TypeInto(parts: seq<string>, i: nat, t: string)
    requires i < |parts| && t != "" && TrimsTo(parts[i], t)
    ensures t in TypesIn(parts)
    decreases |parts|
  {
    if i == 0 {
      var pre, post :| parts[0] == pre + t + post && Blank(pre) && Blank(post);
      TrimOf(pre, t, post);
    } else {
      TypeInto(parts[1..], i - 1, t);
    }
  }

  /** A list that was read holds only plain types. */
  lemma ReadTypesArePlain(list: string)
    ensures forall t :: t in ContentTypes(list) ==> Plain(t)
  {
    SplitFree(list, ',');
    TypesInPlain(Split(list, ','));
  }

  /** What is printed is read back: parse(print(types)) == types. */
  lemma ParsePrint(types: set<string>)
    requires forall t :: t in types ==> Plain(t)
    ensures ContentTypes(ContentListString(types)) == types
  {
    StrLeOrders();
    var parts := SortedOf(types, StrLe);
    ElementsOfSorted(types, StrLe);
    if types == {} {
      assert Split("", ',') == [""];
      assert TypesIn([""]) == {};
    } else {
      forall i | 0 <= i < |parts| ensures Plain(parts[i]) { assert parts[i] in parts; }
      SplitJoin(parts, ',');
      TypesInOfPlain(parts);
    }
  }

  // ---- the remote calls ----

  function Blow(w: World, r: Remote): Remote {
    var outside := w.weather(r.clock).outside;
    r.(cfg := if outside.Some? then outside.value else r.cfg, clock := r.clock + 1)
  }

  function GetConfig(w: World, r: Remote): (Option<map<string, string>>, Remote) {
    var now := w.weather(r.clock);
    var r1 := Blow(w, r);
    if now.lost then (None, r1)
    else
      (Some(if now.noDigest then r1.cfg.fields - {"digest"} else r1.cfg.fields["digest" := w.digestOf(r1.cfg)]),
       r1.(log := r1.log + [Got(r1.cfg)]))
  }

  /** The file after content is set to list, with whatever else PVE changes in it. */
  function Written(cfg: Config, list: string, stray: map<string, string>): Config {
    cfg.(fields := (cfg.fields + (stray - {"digest"}))["content" := list])
  }

  function PutConfig(w: World, r: Remote, list: string, digest: string): (PutReply, Remote) {
    var now := w.weather(r.clock);
    var r1 := Blow(w, r);
    var written := Written(r1.cfg, list, now.stray);
    var stored := r1.(cfg := written, log := r1.log + [Put(r1.cfg, written)]);
    var matches := w.digestOf(r1.cfg) == digest;
    if now.lost then (PutFailed, if matches && now.applied then stored else r1)
    else if !matches then (DigestConflict, r1)
    else if now.refused then (PutFailed, r1)
    else (Done, if now.ignored then r1 else stored)
  }

  // ---- the op, as functions ----

  /** A read without a digest, which a write must carry, is of no use. */
  function ParseSnapshot(raw: map<string, string>): (r: Option<Snapshot>)
    ensures r.Some? <==> "digest" in raw && raw["digest"] != ""
  {
    if "digest" !in raw || raw["digest"] == "" then None
    else Some(Snapshot(ContentOf(raw), raw["digest"], raw))
  }

  function Fetch(w: World, r: Remote): (Option<Snapshot>, Remote) {
    var (raw, r1) := GetConfig(w, r);
    (if raw.None? then None else ParseSnapshot(raw.value), r1)
  }

  ghost function ReadOp(w: World, s: State): (Option<string>, State) {
    var (snapshot, r1) := Fetch(w, s.remote);
    if snapshot.None? then (None, s.(remote := r1))
    else (Some(ContentListString(snapshot.value.content)), State(r1, snapshot))
  }

  predicate Satisfied(s: State, contentType: string) {
    s.snapshot.Some? && contentType in s.snapshot.value.content
  }

  /** A field, an absent one read as "". */
  function Lookup(fields: map<string, string>, k: string): string {
    if k in fields then fields[k] else ""
  }

  /** The fields that differ and were not meant to. */
  function Unexpected(pre: Snapshot, post: Snapshot): set<string> {
    set k | k in pre.fields.Keys + post.fields.Keys && k != "content" && k != "digest"
            && Lookup(pre.fields, k) != Lookup(post.fields, k)
  }

  function DiffGuard(w: World, r: Remote, pre: Snapshot, contentType: string): (Engine.ApplyOutcome, Remote) {
    var (post, r1) := Fetch(w, r);
    if post.None? || Unexpected(pre, post.value) != {} || contentType !in post.value.content then (Engine.Refused, r1)
    else (Engine.Applied, r1)
  }

  ghost function ApplyOp(w: World, r: Remote, contentType: string): (Engine.ApplyOutcome, Remote) {
    if contentType !in VALID_CONTENT_TYPES then (Engine.Refused, r)
    else
      var (pre, r1) := Fetch(w, r);
      if pre.None? then (Engine.Refused, r1) else WriteOp(w, r1, pre.value, contentType)
  }

  /** The write of what was read and the new type, and the diff-guard. */
  ghost function WriteOp(w: World, r: Remote, pre: Snapshot, contentType: string): (Engine.ApplyOutcome, Remote) {
    WriteList(w, r, pre, ContentListString(pre.content + {contentType}), contentType)
  }

  function WriteList(w: World, r: Remote, pre: Snapshot, list: string, contentType: string)
    : (Engine.ApplyOutcome, Remote)
  {
    var (reply, r1) := PutConfig(w, r, list, pre.digest);
    if reply.DigestConflict? then (Engine.Conflict, r1)
    else if reply.PutFailed? || w.weather(r.clock).taskFails then (Engine.Refused, r1)
    else DiffGuard(w, r1, pre, contentType)
  }

  ghost function ApplyStep(w: World, s: State, contentType: string): (Engine.ApplyOutcome, State) {
    var (outcome, r) := ApplyOp(w, s.remote, contentType);
    (outcome, s.(remote := r))
  }

  ghost function ContentOp(w: World, contentType: string): Engine.Op<State, string> {
    Engine.Op(
      s => ReadOp(w, s),
      (s: State, current: string) => Satisfied(s, contentType),
      s => ApplyStep(w, s, contentType),
      None, None, None)
  }

  // ---- the remote changes only by calls ----

  datatype Ask = Gets | Puts(list: string, digest: string)

  function Answer(w: World, r: Remote, a: Ask): Remote {
    match a
    case Gets => GetConfig(w, r).1
    case Puts(list, digest) => PutConfig(w, r, list, digest).1
  }

  function Answers(w: World, r: Remote, asks: seq<Ask>): Remote
    decreases |asks|
  {
    if asks == [] then r else Answers(w, Answer(w, r, asks[0]), asks[1..])
  }

  /** Some calls, each keeping the remote's own record, lead from one remote to the other. */
  ghost predicate Through(w: World, a: Remote, b: Remote) {
    exists asks :: Answers(w, a, asks) == b
  }

  lemma {:induction false} AnswersInTurn(w: World, r: Remote, first: seq<Ask>, rest: seq<Ask>)
    ensures Answers(w, r, first + rest) == Answers(w, Answers(w, r, first), rest)
    decreases |first|
  {
    if first == [] {
      assert first + rest == rest;
    } else {
      assert (first + rest)[1..] == first[1..] + rest;
      AnswersInTurn(w, Answer(w, r, first[0]), first[1..], rest);
    }
  }

  lemma ThroughThen(w: World, a: Remote, b: Remote, ask: Ask)
    requires Through(w, a, b)
    ensures Through(w, a, Answer(w, b, ask))
  {
    var asks :| Answers(w, a, asks) == b;
    AnswersInTurn(w, a, asks, [ask]);
    assert Answers(w, b, [ask]) == Answer(w, b, ask);
  }

  lemma ThroughNothing(w: World, a: Remote)
    ensures Through(w, a, a)
  {
    assert Answers(w, a, []) == a;
  }

  lemma ApplyThrough(w: World, a: Remote, r: Remote, contentType: string)
    requires Through(w, a, r)
    ensures Through(w, a, ApplyOp(w, r, contentType).1)
  {
    ThroughThen(w, a, r, Gets);
    var (pre, r1) := Fetch(w, r);
    if pre.Some? {
      WriteThrough(w, a, r1, pre.value, ContentListString(pre.value.content + {contentType}), contentType);
    }
  }

  lemma WriteThrough(w: World, a: Remote, r: Remote, pre: Snapshot, list: string, contentType: string)
    requires Through(w, a, r)
    ensures Through(w, a, WriteList(w, r, pre, list, contentType).1)
  {
    ThroughThen(w, a, r, Puts(list, pre.digest));
    ThroughThen(w, a, PutConfig(w, r, list, pre.digest).1, Gets);
  }

  // ---- what a run does ----

  /** A write that loses nothing: the types stored at that instant, and the new one; no
      other storage is touched. */
  ghost predicate AddsOnly(put: Event, contentType: string)
    requires put.Put?
  {
    && ContentOf(put.after.fields) == ContentOf(put.before.fields) + {contentType}
    && put.after.others == put.before.others
    && (forall k :: k in put.before.fields ==> k in put.after.fields)
  }

  ghost predicate NoPut(log: seq<Event>) {
    forall i :: 0 <= i < |log| ==> log[i].Got?
  }

  ghost predicate AtMostOneAdd(log: seq<Event>, contentType: string) {
    && (forall i :: 0 <= i < |log| && log[i].Put? ==> AddsOnly(log[i], contentType))
    && forall i, j :: 0 <= i < j < |log| ==> log[i].Got? || log[j].Got?
  }

  /** PVE stores what it answers it stored. */
  ghost predicate StoresWhatItAnswers(w: World) {
    forall i: nat :: !w.weather(i).ignored
  }

  /** Two files agree on every field of the storage but content and digest, an absent one
      read as "". */
  ghost predicate SameButContent(a: Config, b: Config) {
    forall k :: k != "content" && k != "digest" ==> SameField(a.fields, b.fields, k)
  }

  /** A value that one has, the other has. */
  ghost predicate SameField(a: map<string, string>, b: map<string, string>, k: string) {
    && (k in a && a[k] != "" ==> k in b && b[k] == a[k])
    && (k in b && b[k] != "" ==> k in a && a[k] == b[k])
  }

  /** The reads at i and j, on the remote's record, frame the write: it is between them, of
      the very file that was read at i, if it took effect, and there is no other. At j the
      type was there, and every other field as at i. */
  ghost predicate Frames(log: seq<Event>, i: nat, j: nat, contentType: string) {
    && i < j < |log| && j <= i + 2 && log[i].Got? && log[j].Got?
    && (forall k :: 0 <= k < |log| && log[k].Put? ==> k == i + 1 < j && log[k].before == log[i].seen)
    && contentType in ContentOf(log[j].seen.fields) && SameButContent(log[i].seen, log[j].seen)
  }

  ghost predicate Confirmed(log: seq<Event>, contentType: string) {
    exists i, j :: Frames(log, i, j, contentType)
  }

  /** A write took effect, and it is on record. */
  ghost predicate SomePut(log: seq<Event>) {
    exists i :: 0 <= i < |log| && log[i].Put?
  }

  function SnapshotOf(w: World, c: Config): Snapshot {
    Snapshot(ContentOf(c.fields), w.digestOf(c), c.fields["digest" := w.digestOf(c)])
  }

  /** What is fetched is the file as the remote answered it. */
  lemma FetchSees(w: World, r: Remote)
    ensures var (snapshot, r1) := Fetch(w, r);
      && (r1.log == r.log || r1.log == r.log + [Got(r1.cfg)])
      && (snapshot.Some? ==> snapshot.value == SnapshotOf(w, r1.cfg) && r1.log == r.log + [Got(r1.cfg)])
  {
  }

  lemma WrittenAddsOnly(cfg: Config, contentType: string, stray: map<string, string>)
    requires Plain(contentType)
    ensures var list := ContentListString(ContentOf(cfg.fields) + {contentType});
      AddsOnly(Put(cfg, Written(cfg, list, stray)), contentType)
  {
    if "content" in cfg.fields { ReadTypesArePlain(cfg.fields["content"]); }
    ParsePrint(ContentOf(cfg.fields) + {contentType});
  }

  /** A digest-guarded write changes the file that was read, or nothing. */
  lemma PutAddsOnly(w: World, r: Remote, seen: Config, list: string, contentType: string)
    requires GoodDigest(w) && Plain(contentType)
    requires list == ContentListString(ContentOf(seen.fields) + {contentType})
    ensures var (reply, r1) := PutConfig(w, r, list, w.digestOf(seen));
      && (r1.log == r.log
          || (r1.log == r.log + [Put(seen, r1.cfg)] && AddsOnly(Put(seen, r1.cfg), contentType)))
      && (reply.DigestConflict? ==> r1.log == r.log)
      && (reply.Done? && StoresWhatItAnswers(w) ==> r1.log != r.log)
  {
    // If the write takes effect the digests agree, so the file is still the one that was read.
    WrittenAddsOnly(seen, contentType, w.weather(r.clock).stray);
  }

  /** The guard passes only on an answered read that shows the type and, but for content and
      digest, the file the given snapshot was taken of. */
  lemma GuardConfirms(w: World, r: Remote, seen: Config, contentType: string)
    ensures var (outcome, r1) := DiffGuard(w, r, SnapshotOf(w, seen), contentType);
      && !outcome.Conflict? && (r1.log == r.log || r1.log == r.log + [Got(r1.cfg)])
      && (outcome.Applied? ==>
            && r1.log == r.log + [Got(r1.cfg)]
            && contentType in ContentOf(r1.cfg.fields) && SameButContent(seen, r1.cfg))
  {
    FetchSees(w, r);
    var (post, r1) := Fetch(w, r);
    var pre := SnapshotOf(w, seen);
    if post.Some? && Unexpected(pre, post.value) == {} {
      forall k | k != "content" && k != "digest" ensures SameField(seen.fields, r1.cfg.fields, k) {
        assert k !in Unexpected(pre, post.value);
      }
    }
  }

  lemma ValidTypesArePlain(contentType: string)
    requires contentType in VALID_CONTENT_TYPES
    ensures Plain(contentType)
  {
  }

  /** What an attempt leaves on record. */
  ghost predicate Leaves(w: World, contentType: string, outcome: Engine.ApplyOutcome, log: seq<Event>) {
    match outcome
    case Conflict => NoPut(log)
    case Applied => AtMostOneAdd(log, contentType) && Confirmed(log, contentType)
        && (StoresWhatItAnswers(w) ==> SomePut(log))
    case Refused => AtMostOneAdd(log, contentType)
  }

  /** The record of an attempt: the read, the write if it took effect, the guard's read. */
  lemma RecordLeaves(w: World, start: seq<Event>, seen: Config, put: seq<Event>, read: seq<Event>, contentType: string,
                     outcome: Engine.ApplyOutcome)
    requires NoPut(start) && |put| <= 1 && |read| <= 1
    requires forall i :: 0 <= i < |put| ==> put[i].Put? && put[i].before == seen && AddsOnly(put[i], contentType)
    requires forall i :: 0 <= i < |read| ==> read[i].Got?
    requires outcome.Conflict? ==> put == []
    requires outcome.Applied? ==> read != [] && (StoresWhatItAnswers(w) ==> put != [])
    requires outcome.Applied? ==> contentType in ContentOf(read[0].seen.fields) && SameButContent(seen, read[0].seen)
    ensures Leaves(w, contentType, outcome, start + [Got(seen)] + put + read)
  {
    var log := start + [Got(seen)] + put + read;
    var i, j := |start|, |start| + 1 + |put|;
    assert log[i] == Got(seen);
    assert forall k :: 0 <= k < |log| && log[k].Put? ==> k == i + 1 && put != [] && log[k] == put[0];
    if outcome.Applied? {
      assert log[j] == read[0];
      assert Frames(log, i, j, contentType);
      if put != [] { assert log[i + 1] == put[0]; }
    }
  }

  lemma ApplyLeaves(w: World, r: Remote, contentType: string)
    requires GoodDigest(w) && NoPut(r.log)
    ensures Leaves(w, contentType, ApplyOp(w, r, contentType).0, ApplyOp(w, r, contentType).1.log)
  {
    if contentType !in VALID_CONTENT_TYPES { return; }
    ValidTypesArePlain(contentType);
    FetchSees(w, r);
    var (pre, r1) := Fetch(w, r);
    if pre.Some? { WriteLeaves(w, r.log, r1, r1.cfg, contentType); }
  }

  lemma WriteLeaves(w: World, start: seq<Event>, r: Remote, seen: Config, contentType: string)
    requires GoodDigest(w) && Plain(contentType) && NoPut(start) && r.log == start + [Got(seen)]
    ensures var (outcome, r1) := WriteOp(w, r, SnapshotOf(w, seen), contentType);
      Leaves(w, contentType, outcome, r1.log)
  {
    var list := ContentListString(ContentOf(seen.fields) + {contentType});
    PutAddsOnly(w, r, seen, list, contentType);
    WriteListLeaves(w, start, r, seen, list, contentType);
  }

  lemma WriteListLeaves(w: World, start: seq<Event>, r: Remote, seen: Config, list: string, contentType: string)
    requires NoPut(start) && r.log == start + [Got(seen)]
    requires var (reply, r1) := PutConfig(w, r, list, w.digestOf(seen));
      && (r1.log == r.log
          || (r1.log == r.log + [Put(seen, r1.cfg)] && AddsOnly(Put(seen, r1.cfg), contentType)))
      && (reply.DigestConflict? ==> r1.log == r.log)
      && (reply.Done? && StoresWhatItAnswers(w) ==> r1.log != r.log)
    ensures var (outcome, r1) := WriteList(w, r, SnapshotOf(w, seen), list, contentType);
      Leaves(w, contentType, outcome, r1.log)
  {
    var (reply, r1) := PutConfig(w, r, list, w.digestOf(seen));
    var put := if r1.log == r.log then [] else [Put(seen, r1.cfg)];
    assert r1.log == start + [Got(seen)] + put + [];
    if reply.DigestConflict? {
      RecordLeaves(w, start, seen, put, [], contentType, Engine.Conflict);
    } else if reply.PutFailed? || w.weather(r.clock).taskFails {
      RecordLeaves(w, start, seen, put, [], contentType, Engine.Refused);
    } else {
      GuardConfirms(w, r1, seen, contentType);
      var (outcome, r2) := DiffGuard(w, r1, SnapshotOf(w, seen), contentType);
      var read := if r2.log == r1.log then [] else [Got(r2.cfg)];
      assert r2.log == start + [Got(seen)] + put + read;
      RecordLeaves(w, start, seen, put, read, contentType, outcome);
    }
  }

  /** A later read changes nothing of it. */
  lemma LaterRead(w: World, r: Remote, contentType: string)
    ensures var r1 := Fetch(w, r).1;
      && (NoPut(r.log) ==> NoPut(r1.log))
      && (AtMostOneAdd(r.log, contentType) ==> AtMostOneAdd(r1.log, contentType))
      && (Confirmed(r.log, contentType) ==> Confirmed(r1.log, contentType))
      && (SomePut(r.log) ==> SomePut(r1.log))
  {
    FetchSees(w, r);
    var r1 := Fetch(w, r).1;
    assert forall k :: 0 <= k < |r.log| ==> r1.log[k] == r.log[k];
    if Confirmed(r.log, contentType) {
      var i, j :| Frames(r.log, i, j, contentType);
      assert Frames(r1.log, i, j, contentType);
    }
    if SomePut(r.log) {
      var i :| 0 <= i < |r.log| && r.log[i].Put?;
      assert r1.log[i].Put?;
    }
  }

  /** What holds of a run's remote after a conflict, a change or a refusal; before any of
      them, what holds after a conflict. */
  ghost predicate Met(w: World, a: Remote, contentType: string, outcome: Engine.ApplyOutcome, s: State) {
    Through(w, a, s.remote) && Leaves(w, contentType, outcome, s.remote.log)
  }

  ghost function RunContract(w: World, a: Remote, contentType: string): Engine.Contract<State> {
    Engine.ContractOf((outcome: Engine.ApplyOutcome, s: State) => Met(w, a, contentType, outcome, s))
  }

  lemma ReadKeeps(w: World, a: Remote, s: State, contentType: string, outcome: Engine.ApplyOutcome)
    requires Met(w, a, contentType, outcome, s)
    ensures Met(w, a, contentType, outcome, ReadOp(w, s).1)
  {
    ThroughThen(w, a, s.remote, Gets);
    LaterRead(w, s.remote, contentType);
  }

  lemma ApplyKeeps(w: World, a: Remote, s: State, contentType: string)
    requires GoodDigest(w) && Met(w, a, contentType, Engine.Conflict, s)
    ensures var (outcome, s1) := ApplyStep(w, s, contentType); Met(w, a, contentType, outcome, s1)
  {
    ApplyThrough(w, a, s.remote, contentType);
    ApplyLeaves(w, s.remote, contentType);
  }

  lemma ContentOpMeets(w: World, a: Remote, contentType: string)
    requires GoodDigest(w)
    ensures Engine.Meets(ContentOp(w, contentType), RunContract(w, a, contentType))
  {
    var op := ContentOp(w, contentType);
    var met := (outcome: Engine.ApplyOutcome, s: State) => Met(w, a, contentType, outcome, s);
    forall outcome: Engine.ApplyOutcome, s: State | met(outcome, s) ensures met(outcome, op.read(s).1) {
      ReadKeeps(w, a, s, contentType, outcome);
    }
    forall s: State {:trigger op.apply(s)} | met(Engine.Conflict, s) ensures met(op.apply(s).0, op.apply(s).1) {
      ApplyKeeps(w, a, s, contentType);
    }
    Engine.MeetsByOutcome(op, met);
  }

  /** A whole run, whatever anyone else writes and whatever fails: nothing but its calls
      changed the remote; at most one write takes effect, and it keeps every type stored at
      that instant; a run that reports no change, a conflict or a failed read wrote nothing;
      a run that reports a change read the file after its write with the type in it and
      every other field as in the very file it wrote to. */
  lemma ToggleLosesNothing(w: World, s: State, contentType: string, force: bool, lockFree: bool)
    requires GoodDigest(w) && s.remote.log == []
    ensures var e := Engine.RunSpec(ContentOp(w, contentType), s, force, lockFree);
      && Through(w, s.remote, e.state.remote) && AtMostOneAdd(e.state.remote.log, contentType)
      && (e.result.Ok? && e.result.value.changed ==>
            Confirmed(e.state.remote.log, contentType) && (StoresWhatItAnswers(w) ==> SomePut(e.state.remote.log)))
      && (e.result.Ok? && !e.result.value.changed ==>
            !force && NoPut(e.state.remote.log) && EndsSeeing(e.state.remote.log, contentType))
      && (e.result.Err? && e.result.error != Engine.ApplyFailed(false) ==> NoPut(e.state.remote.log))
  {
    ThroughNothing(w, s.remote);
    ContentOpMeets(w, s.remote, contentType);
    Engine.RunKeepsContract(ContentOp(w, contentType), RunContract(w, s.remote, contentType), s, force, lockFree);
    NoChangeSaw(w, s, contentType, force, lockFree);
  }

  /** The last read on record was of a file with the type in it. */
  ghost predicate EndsSeeing(log: seq<Event>, contentType: string) {
    log != [] && log[|log| - 1].Got? && contentType in ContentOf(log[|log| - 1].seen.fields)
  }

  lemma NoChangeSaw(w: World, s: State, contentType: string, force: bool, lockFree: bool)
    ensures var e := Engine.RunSpec(ContentOp(w, contentType), s, force, lockFree);
      e.result.Ok? && !e.result.value.changed ==> !force && EndsSeeing(e.state.remote.log, contentType)
  {
    var op := ContentOp(w, contentType);
    var e := Engine.RunSpec(op, s, force, lockFree);
    var starts := Engine.RunShape(op, s, force);
    if lockFree && e.result.Ok? && !e.result.value.changed {
      var start := starts[|starts| - 1];
      assert Engine.NoChangeReported(op, force, start, e.result.value, e.state);
      SatisfiedSees(w, start, contentType);
    }
  }

  lemma SatisfiedSees(w: World, start: State, contentType: string)
    requires ReadOp(w, start).0.Some? && Satisfied(ReadOp(w, start).1, contentType)
    ensures EndsSeeing(ReadOp(w, start).1.remote.log, contentType)
  {
    FetchSees(w, start.remote);
  }

  /** A type that PVE does not know is never written, and never reported as a change. */
  lemma UnknownType(w: World, s: State, contentType: string, force: bool, lockFree: bool)
    requires contentType !in {"images", "rootdir", "iso", "vztmpl", "backup", "snippets", "import"}
    requires NoPut(s.remote.log)
    ensures var e := Engine.RunSpec(ContentOp(w, contentType), s, force, lockFree);
      NoPut(e.state.remote.log) && (e.result.Ok? ==> !e.result.value.changed)
  {
    var op := ContentOp(w, contentType);
    forall s: State {:trigger op.read(s)} | NoPut(s.remote.log) ensures NoPut(op.read(s).1.remote.log) {
      ReadWritesNothing(w, s);
    }
    forall s: State {:trigger op.apply(s)} ensures op.apply(s) == (Engine.Refused, s) {
      assert ApplyStep(w, s, contentType) == (Engine.Refused, s.(remote := s.remote));
    }
    NeverApplies(op, s, force, lockFree);
  }

  lemma ReadWritesNothing(w: World, s: State)
    requires NoPut(s.remote.log)
    ensures NoPut(ReadOp(w, s).1.remote.log)
  {
    FetchSees(w, s.remote);
  }

  lemma NeverApplies(op: Engine.Op<State, string>, s: State, force: bool, lockFree: bool)
    requires op.reRead.None? && op.postApply.None? && op.postNoop.None? && NoPut(s.remote.log)
    requires forall s: State {:trigger op.read(s)} :: NoPut(s.remote.log) ==> NoPut(op.read(s).1.remote.log)
    requires forall s: State {:trigger op.apply(s)} :: op.apply(s) == (Engine.Refused, s)
    ensures var e := Engine.RunSpec(op, s, force, lockFree);
      NoPut(e.state.remote.log) && (e.result.Ok? ==> !e.result.value.changed)
  {
    var met := (outcome: Engine.ApplyOutcome, s: State) => !outcome.Applied? && NoPut(s.remote.log);
    Engine.MeetsByOutcome(op, met);
    Engine.RunKeepsContract(op, Engine.ContractOf(met), s, force, lockFree);
  }

  // ---- what a run achieves ----

  const CALM := Weather(None, false, false, false, false, map[], false, false)

  lemma CalmGuard(w: World, r: Remote, pre: Snapshot, contentType: string)
    requires w.weather(r.clock) == CALM && GoodDigest(w)
    requires contentType in ContentOf(r.cfg.fields)
    requires forall k :: k != "content" && k != "digest" ==> Lookup(pre.fields, k) == Lookup(r.cfg.fields, k)
    requires "digest" !in r.cfg.fields
    ensures DiffGuard(w, r, pre, contentType).0.Applied? && DiffGuard(w, r, pre, contentType).1.cfg == r.cfg
  {
    var (post, r1) := Fetch(w, r);
    assert post.Some? && post.value.fields == r.cfg.fields["digest" := w.digestOf(r.cfg)];
    assert post.value.content == ContentOf(r.cfg.fields);
    assert Unexpected(pre, post.value) == {};
  }

  /** A calm write sets content and nothing else. */
  lemma CalmPut(w: World, r: Remote, list: string)
    requires w.weather(r.clock) == CALM
    ensures var (reply, r1) := PutConfig(w, r, list, w.digestOf(r.cfg));
      && reply == Done && r1.cfg == Written(r.cfg, list, map[]) && r1.clock == r.clock + 1
      && (forall k :: k != "content" ==> Lookup(r1.cfg.fields, k) == Lookup(r.cfg.fields, k))
      && ("digest" !in r.cfg.fields ==> "digest" !in r1.cfg.fields)
  {
    assert Written(r.cfg, list, map[]).fields == r.cfg.fields["content" := list];
  }

  lemma CalmWrite(w: World, r: Remote, pre: Snapshot, contentType: string)
    requires GoodDigest(w) && w.weather(r.clock) == CALM && w.weather(r.clock + 1) == CALM
    requires Plain(contentType) && "digest" !in r.cfg.fields
    requires pre.digest == w.digestOf(r.cfg) && pre.content == ContentOf(r.cfg.fields)
    requires forall k :: k != "digest" ==> Lookup(pre.fields, k) == Lookup(r.cfg.fields, k)
    ensures WriteOp(w, r, pre, contentType).0.Applied?
    ensures ContentOf(WriteOp(w, r, pre, contentType).1.cfg.fields) == pre.content + {contentType}
  {
    var list := ContentListString(pre.content + {contentType});
    WrittenAddsOnly(r.cfg, contentType, map[]);
    CalmWriteList(w, r, pre, list, contentType);
  }

  lemma CalmWriteList(w: World, r: Remote, pre: Snapshot, list: string, contentType: string)
    requires GoodDigest(w) && w.weather(r.clock) == CALM && w.weather(r.clock + 1) == CALM
    requires pre.digest == w.digestOf(r.cfg) && "digest" !in r.cfg.fields
    requires forall k :: k != "digest" ==> Lookup(pre.fields, k) == Lookup(r.cfg.fields, k)
    requires contentType in ContentOf(Written(r.cfg, list, map[]).fields)
    ensures var (outcome, r1) := WriteList(w, r, pre, list, contentType);
      outcome.Applied? && r1.cfg == Written(r.cfg, list, map[])
  {
    CalmPut(w, r, list);
    CalmGuard(w, PutConfig(w, r, list, pre.digest).1, pre, contentType);
  }

  lemma CalmFetch(w: World, r: Remote)
    requires GoodDigest(w) && w.weather(r.clock) == CALM
    ensures var (pre, r1) := Fetch(w, r);
      r1.cfg == r.cfg && r1.clock == r.clock + 1 && pre == Some(SnapshotOf(w, r.cfg))
  {
    assert r.cfg.fields["digest" := w.digestOf(r.cfg)]["digest"] == w.digestOf(r.cfg);
  }

  lemma CalmApply(w: World, r: Remote, contentType: string)
    requires GoodDigest(w) && (forall i: nat :: w.weather(i) == CALM)
    requires contentType in VALID_CONTENT_TYPES && "digest" !in r.cfg.fields
    ensures ApplyOp(w, r, contentType).0.Applied?
    ensures ContentOf(ApplyOp(w, r, contentType).1.cfg.fields) == ContentOf(r.cfg.fields) + {contentType}
  {
    CalmFetch(w, r);
    ValidTypesArePlain(contentType);
    CalmWrite(w, Fetch(w, r).1, SnapshotOf(w, r.cfg), contentType);
  }

  /** And it does what it is for: when nobody interferes and nothing fails, the type is
      added, and the run reports a change exactly if it was not there. */
  lemma CalmToggle(w: World, s: State, contentType: string)
    requires GoodDigest(w) && (forall i: nat :: w.weather(i) == CALM)
    requires contentType in VALID_CONTENT_TYPES && "digest" !in s.remote.cfg.fields
    ensures var e := Engine.RunSpec(ContentOp(w, contentType), s, false, true);
      var was := ContentOf(s.remote.cfg.fields);
      && e.result.Ok? && (e.result.value.changed <==> contentType !in was)
      && ContentOf(e.state.remote.cfg.fields) == was + {contentType}
  {
    var op := ContentOp(w, contentType);
    CalmFetch(w, s.remote);
    var (current, s1) := op.read(s);
    assert current.Some? && s1.remote.cfg == s.remote.cfg && s1.snapshot == Some(SnapshotOf(w, s.remote.cfg));
    if contentType in ContentOf(s.remote.cfg.fields) {
      assert op.satisfied(s1, current.value);
    } else {
      CalmApply(w, s1.remote, contentType);
      var (outcome, s2) := op.apply(s1);
      var calls := [Engine.Lock] + [Engine.Read(true), Engine.Apply(outcome)];
      assert !op.satisfied(s1, current.value);
      assert Engine.Attempts(op, s, false, 1, [Engine.Lock]) == Engine.Changed(op, s2, current.value, calls);
      CalmFetch(w, s2.remote);
    }
  }

  // ---- the op as it runs ----

  /** The client's two calls. */
  class StorageClient {
    const w: World
    var remote: Remote

    constructor (w: World, cfg: Config)
      ensures this.w == w && remote == Remote(cfg, 0, [])
    {
      this.w, remote := w, Remote(cfg, 0, []);
    }

    method GetConfigRaw() returns (raw: Option<map<string, string>>)
      modifies this
      ensures (raw, remote) == GetConfig(w, old(remote))
    {
      var r := GetConfig(w, remote);
      raw, remote := r.0, r.1;
    }

    method UpdateConfig(list: string, digest: string) returns (reply: PutReply)
      modifies this
      ensures (reply, remote) == PutConfig(w, old(remote), list, digest)
    {
      var r := PutConfig(w, remote, list, digest);
      reply, remote := r.0, r.1;
    }
  }

  method ParseContent(list: string) returns (types: set<string>)
    ensures types == ContentTypes(list)
  {
    types := {};
    var parts := Split(list, ',');
    var i := 0;
    while i < |parts|
      invariant 0 <= i <= |parts|
      invariant types + TypesIn(parts[i..]) == TypesIn(parts)
    {
      var t := Trim(parts[i]);
      if t != "" { types := types + {t}; }
      i := i + 1;
    }
  }

  method UnexpectedFields(pre: Snapshot, post: Snapshot) returns (unexpected: set<string>)
    ensures unexpected == Unexpected(pre, post)
  {
    unexpected := {};
    var rest := pre.fields.Keys + post.fields.Keys;
    while rest != {}
      invariant rest <= pre.fields.Keys + post.fields.Keys
      invariant unexpected == set k | k in Unexpected(pre, post) && k !in rest
      decreases rest
    {
      var k :| k in rest;
      rest := rest - {k};
      if k != "content" && k != "digest" && Lookup(pre.fields, k) != Lookup(post.fields, k) {
        unexpected := unexpected + {k};
      }
    }
  }

  method PrintContent(types: set<string>) returns (list: string)
    ensures list == ContentListString(types)
  {
    var sorted := CollectStrings(types);
    list := Join(sorted, ',');
  }

  class ContentEnsure {
    const client: StorageClient
    const contentType: string
    var snapshot: Option<Snapshot>

    constructor (client: StorageClient, contentType: string)
      ensures this.client == client && this.contentType == contentType && snapshot == None
    {
      this.client, this.contentType, snapshot := client, contentType, None;
    }

    method Fetched() returns (s: Option<Snapshot>)
      modifies client
      ensures (s, client.remote) == Fetch(client.w, old(client.remote))
    {
      var raw := client.GetConfigRaw();
      if raw.None? || "digest" !in raw.value || raw.value["digest"] == "" { return None; }
      var content: set<string> := {};
      if "content" in raw.value { content := ParseContent(raw.value["content"]); }
      return Some(Snapshot(content, raw.value["digest"], raw.value));
    }

    method Read() returns (current: Option<string>)
      modifies this, client
      ensures (current, State(client.remote, snapshot)) == ReadOp(client.w, old(State(client.remote, snapshot)))
    {
      var s := Fetched();
      if s.None? { return None; }
      snapshot := s;
      var list := PrintContent(s.value.content);
      return Some(list);
    }

    method Apply() returns (outcome: Engine.ApplyOutcome)
      modifies client
      ensures (outcome, client.remote) == ApplyOp(client.w, old(client.remote), contentType)
    {
      if contentType !in VALID_CONTENT_TYPES { return Engine.Refused; }
      var pre := Fetched();
      if pre.None? { return Engine.Refused; }
      outcome := Write(pre.value);
    }

    method Write(pre: Snapshot) returns (outcome: Engine.ApplyOutcome)
      modifies client
      ensures (outcome, client.remote) == WriteOp(client.w, old(client.remote), pre, contentType)
    {
      var list := PrintContent(pre.content + {contentType});
      var now := client.w.weather(client.remote.clock);
      var reply := client.UpdateConfig(list, pre.digest);
      match reply {
        case DigestConflict => return Engine.Conflict;
        case PutFailed => return Engine.Refused;
        case Done =>
      }
      if now.taskFails { return Engine.Refused; }
      outcome := Guard(pre);
    }

    method Guard(pre: Snapshot) returns (outcome: Engine.ApplyOutcome)
      modifies client
      ensures (outcome, client.remote) == DiffGuard(client.w, old(client.remote), pre, contentType)
    {
      var post := Fetched();
      if post.None? { return Engine.Refused; }
      var unexpected := UnexpectedFields(pre, post.value);
      if unexpected != {} || contentType !in post.value.content { return Engine.Refused; }
      return Engine.Applied;
    }
  }
}
