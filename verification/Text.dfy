/** Splitting and joining on one separator, as strings.Split and strings.Join do. */
module Text {
  import opened Common

  function Split<T(==)>(s: seq<T>, sep: T): (parts: seq<seq<T>>)
    ensures parts != []
  {
    if s == [] then [[]]
    else
      var rest := Split(s[1..], sep);
      if s[0] == sep then [[]] + rest else [[s[0]] + rest[0]] + rest[1..]
  }

  function Join<T>(parts: seq<seq<T>>, sep: T): seq<T> {
    if parts == [] then []
    else if |parts| == 1 then parts[0]
    else parts[0] + [sep] + Join(parts[1..], sep)
  }

  lemma {:induction false} SplitPart<T>(s: seq<T>, sep: T)
    requires sep !in s
    ensures Split(s, sep) == [s]
  {
    if s != [] {
      SplitPart(s[1..], sep);
      assert [s[0]] + s[1..] == s;
    }
  }

  lemma {:induction false} SplitCons<T>(head: seq<T>, sep: T, tail: seq<T>)
    requires sep !in head
    ensures Split(head + [sep] + tail, sep) == [head] + Split(tail, sep)
  {
    var s := head + [sep] + tail;
    if head == [] {
      assert s[1..] == tail;
    } else {
      assert s[1..] == head[1..] + [sep] + tail;
      SplitCons(head[1..], sep, tail);
      assert ([head[1..]] + Split(tail, sep))[1..] == Split(tail, sep);
      assert [head[0]] + head[1..] == head;
    }
  }

  /** Parts free of the separator survive a join and a split. */
  lemma {:induction false} SplitJoin<T>(parts: seq<seq<T>>, sep: T)
    requires parts != [] && forall p :: p in parts ==> sep !in p
    ensures Split(Join(parts, sep), sep) == parts
  {
    if |parts| == 1 {
      SplitPart(parts[0], sep);
    } else {
      SplitCons(parts[0], sep, Join(parts[1..], sep));
      SplitJoin(parts[1..], sep);
    }
  }

  /** And the other way: what was split is joined again. */
  lemma {:induction false} JoinSplit<T>(s: seq<T>, sep: T)
    ensures Join(Split(s, sep), sep) == s
  {
    if s != [] {
      JoinSplit(s[1..], sep);
      var rest := Split(s[1..], sep);
      var parts := Split(s, sep);
      if s[0] == sep {
        assert parts == [[]] + rest && parts[1..] == rest;
        assert Join(parts, sep) == [] + [sep] + Join(rest, sep);
      } else {
        assert parts == [[s[0]] + rest[0]] + rest[1..] && parts[1..] == rest[1..];
        if |rest| > 1 {
          assert Join(parts, sep) == [s[0]] + rest[0] + [sep] + Join(rest[1..], sep);
        }
      }
      assert [s[0]] + s[1..] == s;
    }
  }

  lemma {:induction false} SplitFree<T>(s: seq<T>, sep: T)
    ensures forall p :: p in Split(s, sep) ==> sep !in p
    ensures forall p, x :: p in Split(s, sep) && x in p ==> x in s
  {
    if s != [] { SplitFree(s[1..], sep); }
  }

  function NonEmpty<T(==)>(parts: seq<seq<T>>): seq<seq<T>> {
    if parts == [] then []
    else (if parts[0] == [] then [] else [parts[0]]) + NonEmpty(parts[1..])
  }

  /** Unicode white space, as Go trims it. */
  predicate Space(c: char) {
    || c in {' ', '\t', '\n', '\r', '\U{0B}', '\U{0C}', '\U{85}', '\U{A0}', '\U{1680}', '\U{2028}', '\U{2029}',
        '\U{202F}', '\U{205F}', '\U{3000}'}
    || '\U{2000}' <= c <= '\U{200A}'
  }

  function TrimLeft(s: string): string {
    if s != "" && Space(s[0]) then TrimLeft(s[1..]) else s
  }

  function TrimRight(s: string): string {
    if s != "" && Space(s[|s| - 1]) then TrimRight(s[..|s| - 1]) else s
  }

  function Trim(s: string): string {
    TrimRight(TrimLeft(s))
  }

  lemma {:induction false} TrimLeftPlain(s: string)
    ensures TrimLeft(s) == "" || !Space(TrimLeft(s)[0])
    ensures forall c :: c in TrimLeft(s) ==> c in s
  {
    if s != "" && Space(s[0]) { TrimLeftPlain(s[1..]); }
  }

  lemma {:induction false} TrimRightPlain(s: string)
    ensures TrimRight(s) == "" || (TrimRight(s)[0] == s[0] && !Space(TrimRight(s)[|TrimRight(s)| - 1]))
    ensures forall c :: c in TrimRight(s) ==> c in s
  {
    if s != "" && Space(s[|s| - 1]) { TrimRightPlain(s[..|s| - 1]); }
  }

  predicate Blank(s: string) {
    forall i :: 0 <= i < |s| ==> Space(s[i])
  }

  lemma {:induction false} TrimLeftParts(s: string) returns (pre: string)
    ensures s == pre + TrimLeft(s) && Blank(pre)
  {
    pre := "";
    if s != "" && Space(s[0]) {
      pre := TrimLeftParts(s[1..]);
      assert s == [s[0]] + s[1..];
      pre := [s[0]] + pre;
    }
  }

  lemma {:induction false} TrimRightParts(s: string) returns (post: string)
    ensures s == TrimRight(s) + post && Blank(post)
  {
    post := "";
    if s != "" && Space(s[|s| - 1]) {
      post := TrimRightParts(s[..|s| - 1]);
      assert s == s[..|s| - 1] + [s[|s| - 1]];
      post := post + [s[|s| - 1]];
    }
  }

  /** Trimming takes white space off either end, */
  lemma TrimParts(s: string) returns (pre: string, post: string)
    ensures s == pre + Trim(s) + post && Blank(pre) && Blank(post)
  {
    pre := TrimLeftParts(s);
    post := TrimRightParts(TrimLeft(s));
  }

  lemma {:induction false} TrimLeftOf(pre: string, t: string)
    requires Blank(pre) && (t == "" || !Space(t[0]))
    ensures TrimLeft(pre + t) == t
  {
    if pre == "" {
      assert pre + t == t;
    } else {
      assert (pre + t)[1..] == pre[1..] + t;
      TrimLeftOf(pre[1..], t);
    }
  }

  lemma {:induction false} TrimRightOf(t: string, post: string)
    requires Blank(post) && (t == "" || !Space(t[|t| - 1]))
    ensures TrimRight(t + post) == t
  {
    if post == "" {
      assert t + post == t;
    } else {
      assert (t + post)[..|t + post| - 1] == t + post[..|post| - 1];
      TrimRightOf(t, post[..|post| - 1]);
    }
  }

  /** and all of it. */
  lemma TrimOf(pre: string, t: string, post: string)
    requires Blank(pre) && Blank(post) && t != "" && !Space(t[0]) && !Space(t[|t| - 1])
    ensures Trim(pre + t + post) == t
  {
    assert pre + t + post == pre + (t + post);
    TrimLeftOf(pre, t + post);
    TrimRightOf(t, post);
  }

  lemma {:induction false} TrimBlank(s: string)
    requires Blank(s)
    ensures Trim(s) == ""
  {
    assert s == s + "";
    TrimLeftOf(s, "");
  }

  /** ASCII lower case. No other letter folds onto one of the tokens or tags compared. */
  function Lower(s: string): string {
    if s == "" then "" else [LowerChar(s[0])] + Lower(s[1..])
  }

  function LowerChar(c: char): char {
    if 'A' <= c <= 'Z' then c + ('a' - 'A') else c
  }

  /** Letters that differ in case only. */
  predicate SameLetter(c: char, d: char) {
    || c == d
    || ('A' <= c <= 'Z' && d as int == c as int + 32)
    || ('A' <= d <= 'Z' && c as int == d as int + 32)
  }

  lemma CharFolds(c: char, d: char)
    ensures LowerChar(c) == LowerChar(d) <==> SameLetter(c, d)
    ensures !('A' <= LowerChar(c) <= 'Z')
  {
  }

  /** Two texts have one lower case exactly when they differ in case only. */
  lemma {:induction false} LowerFolds(a: string, b: string)
    ensures Lower(a) == Lower(b) <==> |a| == |b| && forall i :: 0 <= i < |a| ==> SameLetter(a[i], b[i])
    ensures |Lower(a)| == |a| && forall i :: 0 <= i < |a| ==> !('A' <= Lower(a)[i] <= 'Z')
  {
    if a == "" {
      assert b != "" ==> |Lower(b)| > 0;
    } else if b != "" {
      LowerFolds(a[1..], b[1..]);
      CharFolds(a[0], b[0]);
      assert Lower(a)[1..] == Lower(a[1..]) && Lower(b)[1..] == Lower(b[1..]);
      assert a == [a[0]] + a[1..] && b == [b[0]] + b[1..];
    } else {
      CharFolds(a[0], a[0]);
      LowerFolds(a[1..], b);
    }
  }

  /** strings.Cut at the first separator. */
  function Cut(s: string, sep: char): Option<(string, string)> {
    if s == "" then None
    else if s[0] == sep then Some(("", s[1..]))
    else
      match Cut(s[1..], sep)
      case None => None
      case Some((a, b)) => Some(([s[0]] + a, b))
  }

  lemma {:induction false} CutSound(s: string, sep: char)
    ensures match Cut(s, sep)
            case None => sep !in s
            case Some((a, b)) => s == a + [sep] + b && sep !in a
  {
    if s != "" && s[0] != sep { CutSound(s[1..], sep); }
  }

  lemma {:induction false} CutAt(a: string, sep: char, b: string)
    requires sep !in a
    ensures Cut(a + [sep] + b, sep) == Some((a, b))
  {
    if a == "" {
      assert (a + [sep] + b)[1..] == b;
    } else {
      assert (a + [sep] + b)[1..] == a[1..] + [sep] + b;
      CutAt(a[1..], sep, b);
      assert [a[0]] + a[1..] == a;
    }
  }
}
