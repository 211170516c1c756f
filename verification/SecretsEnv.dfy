/** The sealed secrets file (internal/harnesssecrets/env.go): its grammar, and the
    canonical text that is sealed. Text is bytes: a char below 256 is one, and any other is
    refused as no UTF-8. */
module SecretsEnv {
  import opened Common
  import opened Text
  import opened Order

  const ALLOWED_NAMES: seq<string> := ["PVEFORGE_HARNESS_NESTED_ROOT_PASSWORD", "PVEFORGE_ROSTER_PASSPHRASE"]

  const MAX_PLAINTEXT := 65536

  const LF := '\n'

  datatype Pair = Pair(name: string, value: string)

  datatype EnvError =
    | TooLarge | NotUtf8 | CrOrNul | NoPair
    | NotAPair(line: nat) | NotAllowed(line: nat) | EmptyValue(line: nat) | Control(line: nat) | Twice(line: nat)

  // ---- UTF-8 (RFC 3629, section 4) ----

  predicate Cont(c: char) { '\U{80}' <= c <= '\U{BF}' }

  /** The length of the character s starts with, 0 if it starts with none. */
  function RuneLen(s: string): (n: nat)
    ensures n <= |s|
  {
    if s == "" then 0
    else
      var c := s[0];
      if c < '\U{80}' then 1
      else if |s| >= 2 && '\U{C2}' <= c <= '\U{DF}' && Cont(s[1]) then 2
      else if |s| >= 3 && '\U{E0}' <= c <= '\U{EF}' && Cont(s[1]) && Cont(s[2])
        && (c == '\U{E0}' ==> s[1] >= '\U{A0}') && (c == '\U{ED}' ==> s[1] <= '\U{9F}') then 3
      else if |s| >= 4 && '\U{F0}' <= c <= '\U{F4}' && Cont(s[1]) && Cont(s[2]) && Cont(s[3])
        && (c == '\U{F0}' ==> s[1] >= '\U{90}') && (c == '\U{F4}' ==> s[1] <= '\U{8F}') then 4
      else 0
  }

  predicate Utf8(s: string) {
    s == "" || (RuneLen(s) > 0 && Utf8(s[RuneLen(s)..]))
  }

  /** Some character of s is a control character: C0, DEL or C1. */
  predicate HasControl(s: string) {
    s != "" &&
    (s[0] < ' ' || s[0] == '\U{7F}' || (RuneLen(s) == 2 && s[0] == '\U{C2}' && s[1] < '\U{A0}')
     || HasControl(s[if RuneLen(s) > 0 then RuneLen(s) else 1..]))
  }

  /** A character that has an encoding. */
  predicate Scalar(cp: int) {
    0 <= cp < 0xD800 || 0xE000 <= cp < 0x110000
  }

  function Byte(n: int): char
    requires 0 <= n < 256
  {
    n as char
  }

  /** The bytes of a character: the high bits of its number in the first, six in each of
      the others. */
  function Encode(cp: int): string
    requires Scalar(cp)
  {
    if cp < 0x80 then [Byte(cp)]
    else if cp < 0x800 then [Byte(0xC0 + cp / 64), Byte(0x80 + cp % 64)]
    else if cp < 0x10000 then [Byte(0xE0 + cp / 4096), Byte(0x80 + cp / 64 % 64), Byte(0x80 + cp % 64)]
    else
      [Byte(0xF0 + cp / 262144), Byte(0x80 + cp / 4096 % 64), Byte(0x80 + cp / 64 % 64), Byte(0x80 + cp % 64)]
  }

  predicate Scalars(cps: seq<int>) {
    forall i :: 0 <= i < |cps| ==> Scalar(cps[i])
  }

  function EncodeAll(cps: seq<int>): string
    requires Scalars(cps)
  {
    if cps == [] then "" else Encode(cps[0]) + EncodeAll(cps[1..])
  }

  /** A text that starts with an encoded character starts with that character. */
  lemma RuneOfEncoded(cp: int, rest: string)
    requires Scalar(cp)
    ensures RuneLen(Encode(cp) + rest) == |Encode(cp)| > 0
  {
    if cp < 0x80 {
      assert (Encode(cp) + rest)[0] == Encode(cp)[0];
    } else if cp < 0x800 {
      RuneOfTwo(Encode(cp) + rest, cp / 64, cp % 64);
    } else if cp < 0x10000 {
      Bits(cp);
      RuneOfThree(Encode(cp) + rest, cp / 4096, cp / 64 % 64, cp % 64);
    } else {
      Bits(cp);
      RuneOfFour(Encode(cp) + rest, cp / 262144, cp / 4096 % 64, cp / 64 % 64, cp % 64);
    }
  }

  lemma Bits(n: int)
    requires n >= 0
    ensures n == n / 4096 * 4096 + n / 64 % 64 * 64 + n % 64
    ensures n / 4096 == n / 262144 * 64 + n / 4096 % 64
  {
  }

  lemma RuneOfTwo(s: string, a: int, b: int)
    requires 2 <= a < 32 && 0 <= b < 64 && [Byte(0xC0 + a), Byte(0x80 + b)] <= s
    ensures RuneLen(s) == 2
  {
  }

  lemma RuneOfThree(s: string, a: int, b: int, c: int)
    requires 0 <= a < 16 && 0 <= b < 64 && 0 <= c < 64 && (a == 0 ==> b >= 32) && (a == 13 ==> b < 32)
    requires [Byte(0xE0 + a), Byte(0x80 + b), Byte(0x80 + c)] <= s
    ensures RuneLen(s) == 3
  {
  }

  lemma RuneOfFour(s: string, a: int, b: int, c: int, d: int)
    requires 0 <= a < 5 && 0 <= b < 64 && 0 <= c < 64 && 0 <= d < 64 && (a == 0 ==> b >= 16) && (a == 4 ==> b < 16)
    requires [Byte(0xF0 + a), Byte(0x80 + b), Byte(0x80 + c), Byte(0x80 + d)] <= s
    ensures RuneLen(s) == 4
  {
  }

  /** The number of the character that a text starts with. */
  function Decode(s: string): int
    requires RuneLen(s) > 0
  {
    if RuneLen(s) == 1 then s[0] as int
    else if RuneLen(s) == 2 then (s[0] as int - 0xC0) * 64 + (s[1] as int - 0x80)
    else if RuneLen(s) == 3 then ((s[0] as int - 0xE0) * 64 + (s[1] as int - 0x80)) * 64 + (s[2] as int - 0x80)
    else
      (((s[0] as int - 0xF0) * 64 + (s[1] as int - 0x80)) * 64 + (s[2] as int - 0x80)) * 64 + (s[3] as int - 0x80)
  }

  /** Six bits after some more. */
  lemma SixBits(high: int, low: int)
    requires 0 <= high && 0 <= low < 64
    ensures (high * 64 + low) / 64 == high && (high * 64 + low) % 64 == low
  {
  }

  lemma TwelveBits(n: int)
    requires n >= 0
    ensures n / 4096 == n / 64 / 64 && n / 262144 == n / 64 / 64 / 64
  {
  }

  /** And a text that starts with a character starts with its encoding. */
  lemma EncodedRune(s: string)
    requires RuneLen(s) > 0
    ensures Scalar(Decode(s)) && s[..RuneLen(s)] == Encode(Decode(s))
  {
    if RuneLen(s) == 2 {
      EncodedTwo(s[0] as int - 0xC0, s[1] as int - 0x80);
    } else if RuneLen(s) == 3 {
      EncodedThree(s[0] as int - 0xE0, s[1] as int - 0x80, s[2] as int - 0x80);
    } else if RuneLen(s) == 4 {
      EncodedFour(s[0] as int - 0xF0, s[1] as int - 0x80, s[2] as int - 0x80, s[3] as int - 0x80);
    }
  }

  lemma EncodedTwo(a: int, b: int)
    requires 2 <= a < 32 && 0 <= b < 64
    ensures Scalar(a * 64 + b) && Encode(a * 64 + b) == [Byte(0xC0 + a), Byte(0x80 + b)]
  {
    SixBits(a, b);
  }

  lemma EncodedThree(a: int, b: int, c: int)
    requires 0 <= a < 16 && 0 <= b < 64 && 0 <= c < 64 && (a == 0 ==> b >= 32) && (a == 13 ==> b < 32)
    ensures var n := (a * 64 + b) * 64 + c;
      Scalar(n) && Encode(n) == [Byte(0xE0 + a), Byte(0x80 + b), Byte(0x80 + c)]
  {
    SixBits(a, b);
    SixBits(a * 64 + b, c);
    TwelveBits((a * 64 + b) * 64 + c);
  }

  lemma EncodedFour(a: int, b: int, c: int, d: int)
    requires 0 <= a < 5 && 0 <= b < 64 && 0 <= c < 64 && 0 <= d < 64 && (a == 0 ==> b >= 16) && (a == 4 ==> b < 16)
    ensures var n := ((a * 64 + b) * 64 + c) * 64 + d;
      Scalar(n) && Encode(n) == [Byte(0xF0 + a), Byte(0x80 + b), Byte(0x80 + c), Byte(0x80 + d)]
  {
    SixBits(a, b);
    SixBits(a * 64 + b, c);
    SixBits((a * 64 + b) * 64 + c, d);
    TwelveBits(((a * 64 + b) * 64 + c) * 64 + d);
  }

  lemma {:induction false} EncodedIsUtf8(cps: seq<int>)
    requires Scalars(cps)
    ensures Utf8(EncodeAll(cps))
    ensures HasControl(EncodeAll(cps)) <==>
      exists i :: 0 <= i < |cps| && (cps[i] < 32 || 127 <= cps[i] < 160)
    decreases |cps|
  {
    if cps != [] {
      var rest := EncodeAll(cps[1..]);
      EncodedIsUtf8(cps[1..]);
      RuneOfEncoded(cps[0], rest);
      var s := EncodeAll(cps);
      assert s[|Encode(cps[0])|..] == rest;
      ControlFirst(cps[0], rest);
      assert cps == [cps[0]] + cps[1..];
    }
  }

  /** Whether the first character is a control character. */
  lemma ControlFirst(cp: int, rest: string)
    requires Scalar(cp)
    ensures HasControl(Encode(cp) + rest) <==> cp < 32 || 127 <= cp < 160 || HasControl(rest)
  {
    RuneOfEncoded(cp, rest);
    var s := Encode(cp) + rest;
    assert s[|Encode(cp)|..] == rest && s[0] == Encode(cp)[0];
    if cp >= 0x80 { assert s[1] == Encode(cp)[1]; }
  }

  /** Text is what encodes some characters, and which they are decides whether one of them
      is a control character: C0, DEL or C1. */
  lemma {:induction false} Utf8IsEncoding(s: string) returns (cps: seq<int>)
    requires Utf8(s)
    ensures Scalars(cps) && EncodeAll(cps) == s
  {
    if s == "" { return []; }
    var n := RuneLen(s);
    EncodedRune(s);
    var rest := Utf8IsEncoding(s[n..]);
    cps := [Decode(s)] + rest;
    assert s == s[..n] + s[n..] && cps[1..] == rest;
  }

  /** A one-byte character parts a text into two texts. */
  lemma {:induction false} Utf8Parts(a: string, c: char, b: string)
    requires c < '\U{80}'
    ensures Utf8(a + [c] + b) <==> Utf8(a) && Utf8(b)
    decreases |a|
  {
    if a == "" {
      assert (a + [c] + b)[1..] == b;
    } else {
      var n := RuneLen(a);
      assert RuneLen(a + [c] + b) == n;
      if n > 0 {
        assert (a + [c] + b)[n..] == a[n..] + [c] + b;
        Utf8Parts(a[n..], c, b);
      }
    }
  }

  lemma {:induction false} NoControlBytes(s: string)
    requires Utf8(s) && !HasControl(s)
    ensures forall i :: 0 <= i < |s| ==> s[i] >= ' '
  {
    if s != "" { NoControlBytes(s[RuneLen(s)..]); }
  }

  lemma {:induction false} PlainAscii(s: string)
    requires forall i :: 0 <= i < |s| ==> ' ' <= s[i] < '\U{7F}'
    ensures Utf8(s) && !HasControl(s)
  {
    if s != "" { PlainAscii(s[1..]); }
  }

  // ---- the grammar ----

  predicate Named(pairs: seq<Pair>, name: string) {
    exists i :: 0 <= i < |pairs| && pairs[i].name == name
  }

  /** A blank line or a comment. */
  predicate Skipped(line: string) {
    line == "" || line[0] == '#'
  }

  /** Line n: nothing, or one more pair. */
  function ParseLine(line: string, names: seq<string>, n: nat, pairs: seq<Pair>): Result<Option<Pair>, EnvError> {
    if Skipped(line) then Ok(None)
    else
      match Cut(line, '=')
      case None => Err(NotAPair(n))
      case Some((name, value)) =>
        if name !in names then Err(NotAllowed(n))
        else if value == "" then Err(EmptyValue(n))
        else if HasControl(value) then Err(Control(n))
        else if Named(pairs, name) then Err(Twice(n))
        else Ok(Some(Pair(name, value)))
  }

  function ParseLines(lines: seq<string>, names: seq<string>, n: nat, pairs: seq<Pair>): Result<seq<Pair>, EnvError>
    decreases |lines|
  {
    if lines == [] then Ok(pairs)
    else
      match ParseLine(lines[0], names, n, pairs)
      case Err(e) => Err(e)
      case Ok(None) => ParseLines(lines[1..], names, n + 1, pairs)
      case Ok(Some(p)) => ParseLines(lines[1..], names, n + 1, pairs + [p])
  }

  predicate NameLe(p: Pair, q: Pair) { StrLe(p.name, q.name) }

  predicate HasByte(b: string, c: char, d: char) {
    exists i :: 0 <= i < |b| && (b[i] == c || b[i] == d)
  }

  function Parse(b: string, names: seq<string>): Result<seq<Pair>, EnvError> {
    if |b| > MAX_PLAINTEXT then Err(TooLarge)
    else if !Utf8(b) then Err(NotUtf8)
    else if HasByte(b, '\r', '\0') then Err(CrOrNul)
    else
      match ParseLines(Split(b, LF), names, 1, [])
      case Err(e) => Err(e)
      case Ok(pairs) => if pairs == [] then Err(NoPair) else Ok(Sort(pairs, NameLe))
  }

  method ParseEnv(b: string) returns (r: Result<seq<Pair>, EnvError>)
    ensures r == Parse(b, ALLOWED_NAMES)
  {
    r := ParseWith(b, ALLOWED_NAMES);
  }

  method ParseWith(b: string, names: seq<string>) returns (r: Result<seq<Pair>, EnvError>)
    ensures r == Parse(b, names)
  {
    if |b| > MAX_PLAINTEXT { return Err(TooLarge); }
    if !Utf8(b) { return Err(NotUtf8); }
    if HasByte(b, '\r', '\0') { return Err(CrOrNul); }
    var lines, pairs, i := Split(b, LF), [], 0;
    assert lines[0..] == lines;
    while i < |lines|
      invariant 0 <= i <= |lines|
      invariant ParseLines(lines[i..], names, i + 1, pairs) == ParseLines(lines, names, 1, [])
    {
      assert lines[i..][0] == lines[i] && lines[i..][1..] == lines[i + 1..];
      match ParseLine(lines[i], names, i + 1, pairs) {
        case Err(e) => return Err(e);
        case Ok(None) =>
        case Ok(Some(p)) => pairs := pairs + [p];
      }
      i := i + 1;
    }
    if pairs == [] { return Err(NoPair); }
    return Ok(Sort(pairs, NameLe));
  }

  function Format(pairs: seq<Pair>): string {
    if pairs == [] then ""
    else pairs[0].name + ['='] + pairs[0].value + [LF] + Format(pairs[1..])
  }

  method FormatEnv(pairs: seq<Pair>) returns (b: string)
    ensures b == Format(pairs)
  {
    b := "";
    var i := 0;
    while i < |pairs|
      invariant 0 <= i <= |pairs|
      invariant b + Format(pairs[i..]) == Format(pairs)
    {
      assert pairs[i..][1..] == pairs[i + 1..];
      b := b + (pairs[i].name + ['='] + pairs[i].value + [LF]);
      i := i + 1;
    }
  }

  // ---- what parsing finds ----

  /** No name is empty, a comment, or holds '=' or anything but printable ASCII. */
  predicate PlainNames(names: seq<string>) {
    forall i :: 0 <= i < |names| ==> PlainName(names[i])
  }

  predicate PlainName(name: string) {
    name != "" && name[0] != '#' && forall i :: 0 <= i < |name| ==> ' ' <= name[i] < '\U{7F}' && name[i] != '='
  }

  predicate GoodPair(p: Pair, names: seq<string>) {
    p.name in names && p.value != "" && Utf8(p.value) && !HasControl(p.value)
  }

  ghost predicate GoodPairs(pairs: seq<Pair>, names: seq<string>) {
    && (forall i :: 0 <= i < |pairs| ==> GoodPair(pairs[i], names))
    && forall i, j :: 0 <= i < j < |pairs| ==> pairs[i].name != pairs[j].name
  }

  /** The bytes of lines, each with its line end. */
  function Bytes(lines: seq<string>): nat {
    if lines == [] then 0 else |lines[0]| + 1 + Bytes(lines[1..])
  }

  /** The bytes of the lines parsing skips. */
  function SkippedBytes(lines: seq<string>): nat {
    if lines == [] then 0
    else (if Skipped(lines[0]) then |lines[0]| + 1 else 0) + SkippedBytes(lines[1..])
  }

  /** Every line of b is a pair; a final line end leaves a blank last line. */
  ghost predicate EveryLineCounts(b: string) {
    forall i :: 0 <= i < |Split(b, LF)| ==> !Skipped(Split(b, LF)[i])
  }

  lemma {:induction false} NothingSkipped(lines: seq<string>)
    ensures SkippedBytes(lines) == 0 <==> forall i :: 0 <= i < |lines| ==> !Skipped(lines[i])
  {
    if lines != [] {
      NothingSkipped(lines[1..]);
      assert lines == [lines[0]] + lines[1..];
    }
  }

  function PairBytes(pairs: seq<Pair>): nat {
    if pairs == [] then 0 else |pairs[0].name| + |pairs[0].value| + 2 + PairBytes(pairs[1..])
  }

  lemma {:induction false} SplitLines(b: string)
    ensures Bytes(Split(b, LF)) == |b| + 1
    ensures Utf8(b) ==> forall i :: 0 <= i < |Split(b, LF)| ==> Utf8(Split(b, LF)[i])
    decreases |b|
  {
    CutSound(b, LF);
    match Cut(b, LF) {
      case None => SplitPart(b, LF);
      case Some((a, rest)) =>
        SplitCons(a, LF, rest);
        SplitLines(rest);
        Utf8Parts(a, LF, rest);
        assert ([a] + Split(rest, LF))[1..] == Split(rest, LF);
    }
  }

  lemma {:induction false} PairBytesAppend(pairs: seq<Pair>, p: Pair)
    ensures PairBytes(pairs + [p]) == PairBytes(pairs) + |p.name| + |p.value| + 2
  {
    if pairs != [] {
      assert (pairs + [p])[1..] == pairs[1..] + [p];
      PairBytesAppend(pairs[1..], p);
    }
  }

  /** A pair's line is as long as the pair, and its value is text. */
  lemma ParseLineFinds(line: string, names: seq<string>, n: nat, pairs: seq<Pair>)
    requires Utf8(line) && ParseLine(line, names, n, pairs).Ok? && ParseLine(line, names, n, pairs).value.Some?
    ensures var p := ParseLine(line, names, n, pairs).value.value;
      GoodPair(p, names) && !Named(pairs, p.name) && |line| == |p.name| + 1 + |p.value|
  {
    CutSound(line, '=');
    var p := ParseLine(line, names, n, pairs).value.value;
    Utf8Parts(p.name, '=', p.value);
  }

  lemma {:induction false} ParseLinesFind(lines: seq<string>, names: seq<string>, n: nat, pairs: seq<Pair>)
    requires forall i :: 0 <= i < |lines| ==> Utf8(lines[i])
    requires GoodPairs(pairs, names) && ParseLines(lines, names, n, pairs).Ok?
    ensures GoodPairs(ParseLines(lines, names, n, pairs).value, names)
    ensures PairBytes(ParseLines(lines, names, n, pairs).value) + SkippedBytes(lines) == PairBytes(pairs) + Bytes(lines)
    decreases |lines|
  {
    if lines != [] {
      match ParseLine(lines[0], names, n, pairs) {
        case Ok(None) => ParseLinesFind(lines[1..], names, n + 1, pairs);
        case Ok(Some(p)) =>
          ParseLineFinds(lines[0], names, n, pairs);
          PairBytesAppend(pairs, p);
          ParseLinesFind(lines[1..], names, n + 1, pairs + [p]);
      }
    }
  }

  lemma {:induction false} InsertKeeps(p: Pair, pairs: seq<Pair>)
    ensures PairBytes(Insert(p, pairs, NameLe)) == PairBytes(pairs) + |p.name| + |p.value| + 2
  {
    if !(pairs == [] || NameLe(p, pairs[0])) {
      InsertKeeps(p, pairs[1..]);
      assert ([pairs[0]] + Insert(p, pairs[1..], NameLe))[1..] == Insert(p, pairs[1..], NameLe);
    } else {
      assert ([p] + pairs)[1..] == pairs;
    }
  }

  lemma {:induction false} SortKeeps(pairs: seq<Pair>)
    ensures PairBytes(Sort(pairs, NameLe)) == PairBytes(pairs)
  {
    if pairs != [] {
      SortKeeps(pairs[1..]);
      InsertKeeps(pairs[0], Sort(pairs[1..], NameLe));
    }
  }

  lemma NamesOrder()
    ensures Preorder(NameLe)
  {
    StrLeOrders();
  }

  lemma SortGood(pairs: seq<Pair>, names: seq<string>)
    requires GoodPairs(pairs, names)
    ensures GoodPairs(Sort(pairs, NameLe), names) && Sorted(Sort(pairs, NameLe), NameLe)
  {
    NamesOrder();
    SortSorts(pairs, NameLe);
    SameElements(pairs, Sort(pairs, NameLe), names);
  }

  lemma SameElements(a: seq<Pair>, b: seq<Pair>, names: seq<string>)
    requires GoodPairs(a, names) && multiset(a) == multiset(b)
    ensures GoodPairs(b, names)
  {
    forall i | 0 <= i < |b| ensures GoodPair(b[i], names) {
      assert b[i] in multiset(a);
    }
    forall i, j | 0 <= i < j < |b| ensures b[i].name != b[j].name {
      if b[i].name == b[j].name {
        assert b[i] in multiset(a) && b[j] in multiset(a);
        assert b[i] == b[j];
        assert multiset(b[..j]) + multiset(b[j..]) == multiset(b) by { assert b[..j] + b[j..] == b; }
        assert b[i] in multiset(b[..j]) && b[j] in multiset(b[j..]);
        assert multiset(a)[b[i]] >= 2;
        AtMostOnce(a, b[i], names);
      }
    }
  }

  lemma {:induction false} AtMostOnce(a: seq<Pair>, p: Pair, names: seq<string>)
    requires GoodPairs(a, names)
    ensures multiset(a)[p] <= 1
  {
    if a != [] {
      assert a == [a[0]] + a[1..];
      AtMostOnce(a[1..], p, names);
      if p == a[0] { assert p !in a[1..]; }
    }
  }

  /** What is accepted: pairs in order of their names, each name once, and every byte of the
      input, with a line end after the last line, is in a pair or on a skipped line. */
  lemma ParseFinds(b: string, names: seq<string>)
    requires Parse(b, names).Ok?
    ensures var pairs := Parse(b, names).value;
      && pairs != [] && GoodPairs(pairs, names) && Sorted(pairs, NameLe)
      && PairBytes(pairs) + SkippedBytes(Split(b, LF)) == |b| + 1
  {
    SplitLines(b);
    ParseLinesFind(Split(b, LF), names, 1, []);
    var pairs := ParseLines(Split(b, LF), names, 1, []).value;
    SortGood(pairs, names);
    SortKeeps(pairs);
    assert Sort(pairs, NameLe) != [];
  }

  // ---- what printing gives back ----

  function PairLine(p: Pair): string { p.name + ['='] + p.value }

  predicate Printable(s: string) {
    forall i :: 0 <= i < |s| ==> s[i] >= ' '
  }

  lemma LineText(p: Pair)
    requires PlainName(p.name) && Utf8(p.value) && !HasControl(p.value)
    ensures Printable(PairLine(p)) && Utf8(PairLine(p))
  {
    NoControlBytes(p.value);
    PlainAscii(p.name);
    Utf8Parts(p.name, '=', p.value);
    forall i | 0 <= i < |PairLine(p)| ensures PairLine(p)[i] >= ' ' {
      assert PairLine(p)[i] ==
        if i < |p.name| then p.name[i] else if i == |p.name| then '=' else p.value[i - |p.name| - 1];
    }
  }

  lemma NameIsPlain(name: string, names: seq<string>)
    requires name in names && PlainNames(names)
    ensures PlainName(name)
  {
    var k :| 0 <= k < |names| && names[k] == name;
    assert PlainName(names[k]);
  }

  lemma GoodLine(p: Pair, names: seq<string>, n: nat, pairs: seq<Pair>)
    requires GoodPair(p, names) && PlainNames(names) && !Named(pairs, p.name)
    ensures ParseLine(PairLine(p), names, n, pairs) == Ok(Some(p))
  {
    NameIsPlain(p.name, names);
    CutAt(p.name, '=', p.value);
    assert PairLine(p)[0] == p.name[0];
  }

  lemma LineThenRest(line: string, rest: string)
    requires Printable(line) && !HasByte(rest, '\r', '\0')
    ensures LF !in line && !HasByte(line + [LF] + rest, '\r', '\0')
  {
    var s := line + [LF] + rest;
    forall i | 0 <= i < |s| ensures s[i] != '\r' && s[i] != '\0' {
      assert s[i] == if i < |line| then line[i] else if i == |line| then LF else rest[i - |line| - 1];
    }
  }

  lemma {:induction false} FormatText(pairs: seq<Pair>, names: seq<string>)
    requires GoodPairs(pairs, names) && PlainNames(names)
    ensures |Format(pairs)| == PairBytes(pairs) && Utf8(Format(pairs)) && !HasByte(Format(pairs), '\r', '\0')
    decreases |pairs|
  {
    if pairs != [] {
      var line, rest := PairLine(pairs[0]), Format(pairs[1..]);
      FormatText(pairs[1..], names);
      NameIsPlain(pairs[0].name, names);
      LineText(pairs[0]);
      LineThenRest(line, rest);
      assert Format(pairs) == line + [LF] + rest;
      Utf8Parts(line, LF, rest);
    }
  }

  lemma {:induction false} FormatLines(all: seq<Pair>, k: nat, names: seq<string>, n: nat)
    requires GoodPairs(all, names) && PlainNames(names) && k <= |all|
    ensures ParseLines(Split(Format(all[k..]), LF), names, n, all[..k]) == Ok(all)
    decreases |all| - k
  {
    if k == |all| {
      assert all[..k] == all;
      assert Split("", LF) == [""];
      assert [""][1..] == [];
    } else {
      var p, rest := all[k], Format(all[k + 1..]);
      assert all[k..][1..] == all[k + 1..] && all[k..][0] == p;
      assert Format(all[k..]) == PairLine(p) + [LF] + rest;
      forall i | 0 <= i < k ensures all[..k][i].name != p.name { }
      GoodLine(p, names, n, all[..k]);
      NameIsPlain(p.name, names);
      LineText(p);
      assert LF !in PairLine(p);
      SplitCons(PairLine(p), LF, rest);
      var lines := Split(Format(all[k..]), LF);
      assert lines[0] == PairLine(p) && lines[1..] == Split(rest, LF);
      assert all[..k] + [p] == all[..k + 1];
      FormatLines(all, k + 1, names, n + 1);
    }
  }

  /** Whether the canonical text of an accepted input is too long to be accepted again: the
      input is as long as is allowed, and parsing skips none of it. */
  ghost predicate Outgrown(b: string) {
    |b| == MAX_PLAINTEXT && EveryLineCounts(b)
  }

  /** The round trip. The canonical text of whatever is accepted is shorter than the input
      and a line end by the lines that were skipped; it is accepted again, as the same pairs,
      which print as the same bytes, except exactly for an input that it outgrows. */
  lemma RoundTrip(b: string, names: seq<string>)
    requires PlainNames(names) && Parse(b, names).Ok?
    ensures var pairs := Parse(b, names).value;
      && |Format(pairs)| + SkippedBytes(Split(b, LF)) == |b| + 1
      && Parse(Format(pairs), names) == if Outgrown(b) then Err(TooLarge) else Ok(pairs)
  {
    ParseFinds(b, names);
    NothingSkipped(Split(b, LF));
    var pairs := Parse(b, names).value;
    FormatText(pairs, names);
    assert pairs[0..] == pairs && pairs[..0] == [];
    FormatLines(pairs, 0, names, 1);
    SortFixed(pairs, NameLe);
  }

  // ---- exactly what is accepted, and why anything else is not ----

  /** The line is name, '=' and value. */
  ghost predicate Splits(line: string, name: string, value: string) {
    '=' !in name && line == name + ['='] + value
  }

  /** A line that gives a pair. */
  ghost predicate Gives(line: string, names: seq<string>, name: string, value: string) {
    !Skipped(line) && Splits(line, name, value) && name in names && value != "" && !HasControl(value)
  }

  /** Two lines under one name. */
  ghost predicate SameName(a: string, b: string) {
    !Skipped(a) && !Skipped(b) && Cut(a, '=').Some? && Cut(b, '=').Some? && Cut(a, '=').value.0 == Cut(b, '=').value.0
  }

  /** A line that gives a pair, a blank one, or a comment. */
  ghost predicate LineFine(line: string, names: seq<string>) {
    line == "" || line[0] == '#' || exists name, value :: Gives(line, names, name, value)
  }

  ghost predicate LinesFine(lines: seq<string>, names: seq<string>) {
    && (forall i :: 0 <= i < |lines| ==> LineFine(lines[i], names))
    && (forall i, j :: 0 <= i < j < |lines| ==> !SameName(lines[i], lines[j]))
  }

  /** The text, in its own words: within the bound, valid UTF-8 with no CR or NUL, at least
      one line gives a pair, no two under one name, and any other line is blank or a comment. */
  ghost predicate Accepted(b: string, names: seq<string>) {
    && |b| <= 65536 && Utf8(b) && '\r' !in b && '\0' !in b
    && LinesFine(Split(b, LF), names)
    && exists i :: 0 <= i < |Split(b, LF)| && !Skipped(Split(b, LF)[i])
  }

  /** What an error says is so; a line is counted from 1. */
  ghost predicate Rejected(e: EnvError, b: string, names: seq<string>) {
    var lines := Split(b, LF);
    match e
    case TooLarge => |b| > 65536
    case NotUtf8 => !Utf8(b)
    case CrOrNul => '\r' in b || '\0' in b
    case NoPair => forall i :: 0 <= i < |lines| ==> Skipped(lines[i])
    case _ => 1 <= e.line <= |lines| && LineRejected(e, lines[..e.line], names)
  }

  /** An error about one line. */
  predicate AtLine(e: EnvError) {
    e.NotAPair? || e.NotAllowed? || e.EmptyValue? || e.Control? || e.Twice?
  }

  /** The last of the lines is at fault. */
  ghost predicate LineRejected(e: EnvError, lines: seq<string>, names: seq<string>)
    requires lines != []
  {
    var last := lines[|lines| - 1];
    && !Skipped(last)
    && match e
       case NotAPair(_) => '=' !in last
       case NotAllowed(_) => exists name, value :: Splits(last, name, value) && name !in names
       case EmptyValue(_) => exists name :: Splits(last, name, "")
       case Control(_) => exists name, value :: Splits(last, name, value) && HasControl(value)
       case Twice(_) => exists i :: 0 <= i < |lines| - 1 && SameName(lines[i], last)
       case _ => false
  }

  lemma SplitsOnce(line: string, name: string, value: string)
    ensures Splits(line, name, value) <==> Cut(line, '=') == Some((name, value))
  {
    CutSound(line, '=');
    if Splits(line, name, value) { CutAt(name, '=', value); }
  }

  /** The pairs that the lines before gave. */
  ghost predicate FromLines(pairs: seq<Pair>, lines: seq<string>, names: seq<string>) {
    forall p :: p in pairs <==> exists i :: 0 <= i < |lines| && Gives(lines[i], names, p.name, p.value)
  }

  lemma NamedByLine(pairs: seq<Pair>, lines: seq<string>, names: seq<string>, line: string, name: string, value: string)
    requires FromLines(pairs, lines, names) && LinesFine(lines, names) && Splits(line, name, value) && !Skipped(line)
    ensures Named(pairs, name) <==> exists i :: 0 <= i < |lines| && SameName(lines[i], line)
  {
    SplitsOnce(line, name, value);
    if Named(pairs, name) {
      var k :| 0 <= k < |pairs| && pairs[k].name == name;
      assert pairs[k] in pairs;
      var i :| 0 <= i < |lines| && Gives(lines[i], names, pairs[k].name, pairs[k].value);
      SplitsOnce(lines[i], name, pairs[k].value);
    }
    if exists i :: 0 <= i < |lines| && SameName(lines[i], line) {
      var i :| 0 <= i < |lines| && SameName(lines[i], line);
      var n, v :| Gives(lines[i], names, n, v);
      SplitsOnce(lines[i], n, v);
      assert Pair(n, v) in pairs;
    }
  }

  /** One more line. */
  lemma LineStep(lines: seq<string>, line: string, names: seq<string>, pairs: seq<Pair>)
    requires FromLines(pairs, lines, names) && LinesFine(lines, names)
    ensures match ParseLine(line, names, |lines| + 1, pairs)
            case Err(e) => AtLine(e) && e.line == |lines| + 1 && LineRejected(e, lines + [line], names)
            case Ok(None) => Skipped(line)
            case Ok(Some(p)) => Gives(line, names, p.name, p.value) && !Named(pairs, p.name)
  {
    CutSound(line, '=');
    if !Skipped(line) && Cut(line, '=').Some? {
      var (name, value) := Cut(line, '=').value;
      SplitsOnce(line, name, value);
      NamedByLine(pairs, lines, names, line, name, value);
      if Named(pairs, name) {
        var i :| 0 <= i < |lines| && SameName(lines[i], line);
        assert (lines + [line])[i] == lines[i];
      }
    }
  }

  lemma FineStep(lines: seq<string>, line: string, names: seq<string>, pairs: seq<Pair>)
    requires FromLines(pairs, lines, names) && LinesFine(lines, names)
    requires ParseLine(line, names, |lines| + 1, pairs).Ok?
    ensures LinesFine(lines + [line], names)
    ensures var more := ParseLine(line, names, |lines| + 1, pairs).value;
      FromLines(pairs + (if more.Some? then [more.value] else []), lines + [line], names)
  {
    LineStep(lines, line, names, pairs);
    var all := lines + [line];
    var more := ParseLine(line, names, |lines| + 1, pairs).value;
    assert forall i :: 0 <= i < |lines| ==> all[i] == lines[i];
    assert all[|lines|] == line;
    if more.Some? {
      var p := more.value;
      NamedByLine(pairs, lines, names, line, p.name, p.value);
      forall q: Pair | Gives(line, names, q.name, q.value) ensures q == p {
        SplitsOnce(line, p.name, p.value);
        SplitsOnce(line, q.name, q.value);
      }
    }
  }

  /** What parsing some lines ends in, in their own words. */
  ghost predicate Decided(r: Result<seq<Pair>, EnvError>, lines: seq<string>, names: seq<string>) {
    match r
    case Ok(found) => LinesFine(lines, names) && FromLines(found, lines, names)
    case Err(e) => AtLine(e) && 1 <= e.line <= |lines| && LineRejected(e, lines[..e.line], names)
  }

  /** The lines so far gave exactly these pairs, and none was at fault. */
  ghost predicate Gave(pairs: seq<Pair>, lines: seq<string>, names: seq<string>) {
    FromLines(pairs, lines, names) && LinesFine(lines, names)
  }

  function With(pairs: seq<Pair>, more: Option<Pair>): seq<Pair> {
    if more.Some? then pairs + [more.value] else pairs
  }

  lemma OneLine(lines: seq<string>, k: nat, names: seq<string>, pairs: seq<Pair>)
    requires k < |lines| && Gave(pairs, lines[..k], names)
    ensures match ParseLine(lines[k], names, k + 1, pairs)
            case Err(e) => Decided(Err(e), lines, names)
            case Ok(more) => Gave(With(pairs, more), lines[..k + 1], names)
  {
    assert lines[..k] + [lines[k]] == lines[..k + 1];
    LineStep(lines[..k], lines[k], names, pairs);
    var r := ParseLine(lines[k], names, k + 1, pairs);
    if r.Ok? {
      FineStep(lines[..k], lines[k], names, pairs);
      assert r.value.None? ==> pairs + [] == pairs;
    }
  }

  lemma {:induction false} LinesDecide(lines: seq<string>, k: nat, names: seq<string>, pairs: seq<Pair>)
    requires k <= |lines| && Gave(pairs, lines[..k], names)
    ensures Decided(ParseLines(lines[k..], names, k + 1, pairs), lines, names)
    decreases |lines| - k
  {
    if k == |lines| {
      assert lines[..k] == lines;
    } else {
      assert lines[k..][0] == lines[k] && lines[k..][1..] == lines[k + 1..];
      OneLine(lines, k, names, pairs);
      var r := ParseLine(lines[k], names, k + 1, pairs);
      if r.Ok? { LinesDecide(lines, k + 1, names, With(pairs, r.value)); }
    }
  }

  /** A text whose lines are fine has none at fault. */
  lemma FineHasNoFault(lines: seq<string>, names: seq<string>, e: EnvError)
    requires LinesFine(lines, names)
    requires AtLine(e) && 1 <= e.line <= |lines|
    ensures !LineRejected(e, lines[..e.line], names)
  {
    var last := lines[e.line - 1];
    if !Skipped(last) {
      var n, v :| Gives(last, names, n, v);
      forall name: string, value: string | Splits(last, name, value) ensures name == n && value == v {
        SplitsOnce(last, n, v);
        SplitsOnce(last, name, value);
      }
    }
  }

  /** Parsing accepts exactly the texts that are accepted in their own words, finds exactly
      the pairs that their lines give, and what its error says of any other is so. */
  lemma ParseDecides(b: string, names: seq<string>)
    ensures Parse(b, names).Ok? <==> Accepted(b, names)
    ensures Parse(b, names).Ok? ==> FromLines(Parse(b, names).value, Split(b, LF), names)
    ensures Parse(b, names).Err? ==> Rejected(Parse(b, names).error, b, names)
  {
    var lines := Split(b, LF);
    assert HasByte(b, '\r', '\0') <==> '\r' in b || '\0' in b;
    assert lines[0..] == lines && lines[..0] == [];
    LinesDecide(lines, 0, names, []);
    match ParseLines(lines, names, 1, []) {
      case Err(e) => if LinesFine(lines, names) { FineHasNoFault(lines, names, e); }
      case Ok(found) => FoundSorted(found, lines, names);
    }
  }

  lemma FoundSorted(found: seq<Pair>, lines: seq<string>, names: seq<string>)
    requires Gave(found, lines, names)
    ensures FromLines(Sort(found, NameLe), lines, names)
    ensures found == [] <==> forall i :: 0 <= i < |lines| ==> Skipped(lines[i])
  {
    NamesOrder();
    SortSorts(found, NameLe);
    forall p ensures p in Sort(found, NameLe) <==> p in found {
      assert p in found <==> p in multiset(found);
      assert p in Sort(found, NameLe) <==> p in multiset(Sort(found, NameLe));
    }
    SomeGiven(found, lines, names);
  }

  lemma SomeGiven(pairs: seq<Pair>, lines: seq<string>, names: seq<string>)
    requires FromLines(pairs, lines, names) && LinesFine(lines, names)
    ensures pairs == [] <==> forall i :: 0 <= i < |lines| ==> Skipped(lines[i])
  {
    if pairs != [] {
      assert pairs[0] in pairs;
      var i :| 0 <= i < |lines| && Gives(lines[i], names, pairs[0].name, pairs[0].value);
    }
    forall i | 0 <= i < |lines| && !Skipped(lines[i]) ensures pairs != [] {
      var n, v :| Gives(lines[i], names, n, v);
      assert Pair(n, v) in pairs;
    }
  }

  /** The other round trip: pairs in order, each name once, print as a text that is parsed to
      the very pairs. */
  lemma CanonicalParses(pairs: seq<Pair>, names: seq<string>)
    requires PlainNames(names) && GoodPairs(pairs, names) && Sorted(pairs, NameLe)
    requires pairs != [] && |Format(pairs)| <= 65536
    ensures Parse(Format(pairs), names) == Ok(pairs)
  {
    FormatText(pairs, names);
    assert pairs[0..] == pairs && pairs[..0] == [];
    FormatLines(pairs, 0, names, 1);
    SortFixed(pairs, NameLe);
  }

  lemma {:induction false} AllowedNamesArePlain()
    ensures PlainNames(ALLOWED_NAMES)
  {
    assert PlainName("PVEFORGE_HARNESS_NESTED_ROOT_PASSWORD");
    assert PlainName("PVEFORGE_ROSTER_PASSPHRASE");
  }

  lemma EnvRoundTrip(b: string)
    requires Parse(b, ALLOWED_NAMES).Ok?
    ensures var pairs := Parse(b, ALLOWED_NAMES).value;
      && Parse(Format(pairs), ALLOWED_NAMES) == (if Outgrown(b) then Err(TooLarge) else Ok(pairs))
      && forall i :: 0 <= i < |pairs| ==>
           pairs[i].name == "PVEFORGE_HARNESS_NESTED_ROOT_PASSWORD" || pairs[i].name == "PVEFORGE_ROSTER_PASSPHRASE"
  {
    AllowedNamesArePlain();
    RoundTrip(b, ALLOWED_NAMES);
    ParseFinds(b, ALLOWED_NAMES);
    var pairs := Parse(b, ALLOWED_NAMES).value;
    forall i | 0 <= i < |pairs| ensures pairs[i].name in ALLOWED_NAMES { assert GoodPair(pairs[i], ALLOWED_NAMES); }
  }

  /** So a file can be sealed that is never opened again: one name, one value, no line end,
      and exactly as long as is allowed. */
  lemma SealedTooLong(names: seq<string>) returns (b: string)
    requires PlainNames(names) && names != [] && |names[0]| + 2 <= MAX_PLAINTEXT
    ensures |b| == MAX_PLAINTEXT && Parse(b, names).Ok?
    ensures Parse(Format(Parse(b, names).value), names) == Err(TooLarge)
  {
    var value := seq(MAX_PLAINTEXT - |names[0]| - 1, i => 'a');
    var p := Pair(names[0], value);
    assert PlainName(names[0]);
    PlainAscii(value);
    GoodLine(p, names, 1, []);
    b := PairLine(p);
    LineText(p);
    assert LF !in b;
    SplitPart(b, LF);
    assert [b][1..] == [] && [] + [p] == [p];
    assert ParseLines([b], names, 1, []) == Ok([p]);
    assert Sort([p], NameLe) == [p];
    assert |Format([p])| == MAX_PLAINTEXT + 1;
    assert !HasByte(b, '\r', '\0');
  }
}
