/** One comparison for PVE's spellings of a boolean (internal/idempotent/boolish.go). */
module Boolish {
  import opened Common
  import opened Text

  function Token(s: string): string {
    Lower(Trim(s))
  }

  /** The four tokens that are booleans; the empty string is not one. */
  function ParseBoolish(s: string): Option<bool> {
    if Token(s) in {"true", "1"} then Some(true)
    else if Token(s) in {"false", "0"} then Some(false)
    else None
  }

  predicate FieldsEqual(current: string, wanted: string) {
    var cb, wb := ParseBoolish(current), ParseBoolish(wanted);
    if cb.Some? && wb.Some? then cb == wb else current == wanted
  }

  /** What a value stands for: PVE's own boolean for any spelling of one, or its text. */
  function Meaning(s: string): string {
    match ParseBoolish(s)
    case Some(b) => if b then "1" else "0"
    case None => s
  }

  /** The same text, or another spelling of the same boolean. */
  predicate SameSpelled(sent: string, stored: string) {
    stored == sent || (ParseBoolish(sent).Some? && ParseBoolish(stored) == ParseBoolish(sent))
  }

  lemma OneAndZero()
    ensures ParseBoolish("1") == Some(true) && ParseBoolish("0") == Some(false)
  {
    assert Token("1") == "1";
    assert Token("0") == "0";
  }

  /** The word in any letter case, with white space around it. */
  ghost predicate Spells(s: string, word: string) {
    exists pre, t, post :: s == pre + t + post && Blank(pre) && Blank(post) && Lower(t) == word
  }

  lemma TokenSpells(s: string, word: string)
    requires word != "" && !Space(word[0]) && !Space(word[|word| - 1])
    ensures Token(s) == word <==> Spells(s, word)
  {
    if Token(s) == word {
      var pre, post := TrimParts(s);
      assert s == pre + Trim(s) + post;
    }
    if Spells(s, word) {
      var pre, t, post :| s == pre + t + post && Blank(pre) && Blank(post) && Lower(t) == word;
      LowerEnds(t);
      TrimOf(pre, t, post);
    }
  }

  /** Lower case makes nothing white space, and leaves white space as it is. */
  lemma {:induction false} LowerEnds(t: string)
    ensures |Lower(t)| == |t| && forall i :: 0 <= i < |t| ==> Space(Lower(t)[i]) == Space(t[i])
  {
    if t != "" { LowerEnds(t[1..]); }
  }

  /** A boolean is one of the four words, in any letter case, with white space around it. */
  lemma BooleanSpellings(s: string)
    ensures ParseBoolish(s) == Some(true) <==> Spells(s, "true") || Spells(s, "1")
    ensures ParseBoolish(s) == Some(false) <==> Spells(s, "false") || Spells(s, "0")
  {
    TokenSpells(s, "true");
    TokenSpells(s, "1");
    TokenSpells(s, "false");
    TokenSpells(s, "0");
  }

  /** Two values are equal exactly when they stand for the same, so the comparison is an
      equivalence, and a boolean never equals a text. */
  lemma EqualIffSameMeaning(a: string, b: string)
    ensures FieldsEqual(a, b) <==> Meaning(a) == Meaning(b)
    ensures Meaning(Meaning(a)) == Meaning(a)
  {
    OneAndZero();
  }

  lemma EqualIsEquivalence(a: string, b: string, c: string)
    ensures FieldsEqual(a, a)
    ensures FieldsEqual(a, b) ==> FieldsEqual(b, a)
    ensures FieldsEqual(a, b) && FieldsEqual(b, c) ==> FieldsEqual(a, c)
  {
    EqualIffSameMeaning(a, b);
    EqualIffSameMeaning(b, c);
    EqualIffSameMeaning(a, c);
  }
}
