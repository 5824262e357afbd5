/**
 * Localisation: the language chosen at start-up, the text direction that
 * goes with it, and `t`, which looks a key up in the current language's
 * table and then fills in `{name}` placeholders.
 */
module LanguageContext {
  import opened Wrappers
  import opened Types

  datatype Direction = Rtl | Ltr

  /**
   * The language at start-up from the stored code: Arabic when nothing (or
   * the empty string) is stored, otherwise the stored code. A stored string
   * that is not a language code is let through by an unchecked cast; it is
   * `None` here.
   */
  function InitialLanguage(stored: Option<string>): (r: Option<Language>)
    ensures stored.None? ==> r == Some(Ar)
    ensures stored == Some("") ==> r == Some(Ar)
    ensures forall l :: stored == Some(LanguageName(l)) ==> r == Some(l)
    ensures stored.Some? && stored.value != "" ==> (r.Some? <==> ParseLanguage(stored.value).Some?)
  {
    match stored
    case None => Some(Ar)
    case Some(x) => if x == "" then Some(Ar) else ParseLanguage(x)
  }

  /** Right-to-left exactly for Arabic. */
  function Dir(lang: Language): (d: Direction)
    ensures d == Rtl <==> lang == Ar
    ensures d == Ltr <==> lang != Ar
  {
    if lang == Ar then Rtl else Ltr
  }

  /** The translation tables, one map from key to text per language. */
  datatype Translations = Translations(ar: map<string, string>, en: map<string, string>)
  {
    function Table(lang: Language): map<string, string>
    {
      match lang
      case Ar => ar
      case En => en
    }
  }

  /** The entry for `key`, or the key itself when the entry is missing or empty. */
  function Lookup(table: map<string, string>, key: string): (r: string)
    ensures key in table && table[key] != "" ==> r == table[key]
    ensures key !in table || table[key] == "" ==> r == key
    ensures r != "" || key == ""
  {
    if key in table && table[key] != "" then table[key] else key
  }

  // ---------------------------------------------------------------------------
  // Replacement values
  // ---------------------------------------------------------------------------

  /** A replacement value: a string or a number (numbers are whole here). */
  datatype Value = Str(s: string) | Num(n: int)

  function DigitChar(d: nat): (c: char)
    requires d < 10
    ensures '0' <= c <= '9'
    ensures c as int - '0' as int == d
  {
    "0123456789"[d]
  }

  predicate IsDigits(s: string)
  {
    forall i :: 0 <= i < |s| ==> '0' <= s[i] <= '9'
  }

  /** The number a string of decimal digits denotes, most significant digit first. */
  function DecimalValue(s: string): nat
    requires IsDigits(s)
    decreases |s|
  {
    if s == [] then 0
    else 10 * DecimalValue(s[..|s| - 1]) + (s[|s| - 1] as int - '0' as int)
  }

  /** The decimal digits of `n`, most significant first, without leading zeros. */
  function Digits(n: nat): (r: string)
    ensures r != [] && IsDigits(r)
    ensures DecimalValue(r) == n
    ensures n > 0 ==> r[0] != '0'
    ensures n == 0 ==> r == "0"
    decreases n
  {
    if n < 10 then [DigitChar(n)]
    else
      var init := Digits(n / 10);
      var r := init + [DigitChar(n % 10)];
      assert r[..|r| - 1] == init;
      r
  }

  /** The text `String(v)` gives for a value. */
  function ToText(v: Value): (r: string)
    ensures v.Str? ==> r == v.s
    ensures v.Num? && v.n >= 0 ==> IsDigits(r) && r != [] && DecimalValue(r) == v.n
    ensures v.Num? && v.n < 0 ==> |r| >= 2 && r[0] == '-' && IsDigits(r[1..]) && DecimalValue(r[1..]) == -v.n
    ensures v.Num? && v.n == 0 ==> r == "0"
    ensures v.Num? && v.n > 0 ==> r[0] != '0'
    ensures v.Num? && v.n < 0 ==> r[1] != '0'
  {
    match v
    case Str(s) => s
    case Num(n) => if n < 0 then "-" + Digits(-n) else Digits(n)
  }

  // ---------------------------------------------------------------------------
  // Placeholder replacement
  // ---------------------------------------------------------------------------

  /** The placeholder text for a name: the name between braces. */
  function Placeholder(name: string): (r: string)
    ensures |r| == |name| + 2 && r[0] == '{' && r[|r| - 1] == '}'
    ensures r[1..|r| - 1] == name
  {
    "{" + name + "}"
  }

  /** Neither brace occurs in `s`. */
  predicate BraceFree(s: string)
  {
    forall i :: 0 <= i < |s| ==> s[i] != '{' && s[i] != '}'
  }

  /** `pat` occurs in `s` starting at index `i`. */
  predicate OccursAt(s: string, pat: string, i: int)
  {
    0 <= i && i + |pat| <= |s| && s[i..i + |pat|] == pat
  }

  /**
   * Replaces the occurrences of `pat` in `s` by `rep`, scanning left to right
   * and resuming after each replaced occurrence (a global, literal replace).
   */
  function ReplaceAll(s: string, pat: string, rep: string): (r: string)
    requires pat != []
    ensures rep == pat ==> r == s
    decreases |s|
  {
    if |s| < |pat| then s
    else if s[..|pat|] == pat then
      assert s == s[..|pat|] + s[|pat|..];
      rep + ReplaceAll(s[|pat|..], pat, rep)
    else
      assert s == [s[0]] + s[1..];
      [s[0]] + ReplaceAll(s[1..], pat, rep)
  }

  /** Occurrences in `s` are the occurrences in `x + s`, shifted by `|x|`. */
  lemma OccursAfter(x: string, s: string, pat: string, i: int)
    requires 0 <= i
    ensures OccursAt(x + s, pat, |x| + i) == OccursAt(s, pat, i)
  {
    if i + |pat| <= |s| {
      assert (x + s)[|x| + i..|x| + i + |pat|] == s[i..i + |pat|];
    }
  }

  /** A string in which `pat` does not occur is left unchanged. */
  lemma {:induction false} ReplaceAllNoOccurrence(s: string, pat: string, rep: string)
    requires pat != []
    requires forall i :: !OccursAt(s, pat, i)
    ensures ReplaceAll(s, pat, rep) == s
    decreases |s|
  {
    if |s| >= |pat| {
      assert !OccursAt(s, pat, 0);
      forall i ensures !OccursAt(s[1..], pat, i) {
        if 0 <= i {
          OccursAfter([s[0]], s[1..], pat, i);
          assert [s[0]] + s[1..] == s;
        }
      }
      ReplaceAllNoOccurrence(s[1..], pat, rep);
      assert [s[0]] + s[1..] == s;
    }
  }

  /** A prefix in which no occurrence starts is copied unchanged. */
  lemma {:induction false} ReplaceAllPrefix(a: string, t: string, pat: string, rep: string)
    requires pat != []
    requires forall i :: 0 <= i < |a| ==> !OccursAt(a + t, pat, i)
    ensures ReplaceAll(a + t, pat, rep) == a + ReplaceAll(t, pat, rep)
    decreases |a|
  {
    if a != [] {
      var c, a' := a[0], a[1..];
      assert a == [c] + a';
      assert a + t == [c] + (a' + t);
      assert !OccursAt([c] + (a' + t), pat, 0);
      ReplaceAllSkip(c, a' + t, pat, rep);
      NoOccurrenceInTail(c, a' + t, pat, |a'|);
      ReplaceAllPrefix(a', t, pat, rep);
      calc {
        ReplaceAll(a + t, pat, rep);
        ReplaceAll([c] + (a' + t), pat, rep);
        [c] + ReplaceAll(a' + t, pat, rep);
        [c] + (a' + ReplaceAll(t, pat, rep));
        a + ReplaceAll(t, pat, rep);
      }
    } else {
      assert a + t == t;
    }
  }

  /** A first character that does not start an occurrence is copied. */
  lemma ReplaceAllSkip(c: char, u: string, pat: string, rep: string)
    requires pat != []
    requires !OccursAt([c] + u, pat, 0)
    ensures ReplaceAll([c] + u, pat, rep) == [c] + ReplaceAll(u, pat, rep)
  {
    var s := [c] + u;
    assert s[1..] == u;
    if |s| < |pat| {
      ReplaceAllNoOccurrenceShort(u, pat, rep);
    }
  }

  /** Removing the first character shifts the occurrence positions down by one. */
  lemma NoOccurrenceInTail(c: char, u: string, pat: string, n: int)
    requires forall i :: 0 <= i < n + 1 ==> !OccursAt([c] + u, pat, i)
    ensures forall i :: 0 <= i < n ==> !OccursAt(u, pat, i)
  {
    forall i | 0 <= i < n ensures !OccursAt(u, pat, i) {
      OccursAfter([c], u, pat, i);
    }
  }

  /** A string shorter than the pattern is left unchanged. */
  lemma ReplaceAllNoOccurrenceShort(s: string, pat: string, rep: string)
    requires pat != [] && |s| < |pat|
    ensures ReplaceAll(s, pat, rep) == s
  {
  }

  /**
   * When no occurrence of `pat` straddles the boundary between `a` and `t`,
   * the two halves are replaced independently.
   */
  lemma {:induction false} ReplaceAllConcat(a: string, t: string, pat: string, rep: string)
    requires pat != []
    requires forall i :: 0 <= i < |a| < i + |pat| ==> !OccursAt(a + t, pat, i)
    ensures ReplaceAll(a + t, pat, rep) == ReplaceAll(a, pat, rep) + ReplaceAll(t, pat, rep)
    decreases |a|
  {
    var s := a + t;
    if |a| < |pat| {
      ReplaceAllPrefix(a, t, pat, rep);
    } else if a[..|pat|] == pat {
      var a' := a[|pat|..];
      assert s[..|pat|] == pat;
      assert s[|pat|..] == a' + t;
      forall i | 0 <= i < |a'| < i + |pat| ensures !OccursAt(a' + t, pat, i) {
        OccursAfter(a[..|pat|], a' + t, pat, i);
        assert a[..|pat|] + (a' + t) == s;
      }
      ReplaceAllConcat(a', t, pat, rep);
    } else {
      var a' := a[1..];
      assert s[..|pat|] == a[..|pat|];
      assert s[1..] == a' + t;
      forall i | 0 <= i < |a'| < i + |pat| ensures !OccursAt(a' + t, pat, i) {
        OccursAfter([a[0]], a' + t, pat, i);
        assert [a[0]] + (a' + t) == s;
      }
      ReplaceAllConcat(a', t, pat, rep);
    }
  }

  /** No placeholder occurrence can start before an opening brace and run across it. */
  lemma NoStraddleBeforeBrace(a: string, w: string, p: string)
    requires BraceFree(p)
    requires w != [] && w[0] == '{'
    ensures forall i :: 0 <= i < |a| < i + |Placeholder(p)| ==> !OccursAt(a + w, Placeholder(p), i)
  {
    var pat := Placeholder(p);
    forall i | 0 <= i < |a| < i + |pat| ensures !OccursAt(a + w, pat, i) {
      var k := |a| - i;
      assert pat[k] != '{' by {
        if k <= |p| {
          assert pat[k] == p[k - 1];
        }
      }
      if i + |pat| <= |a + w| {
        assert (a + w)[i..i + |pat|][k] == (a + w)[|a|] == '{';
      }
    }
  }

  /** No occurrence of `{p}` starts inside `{q}` and runs past its end. */
  lemma NoStraddleAfterPlaceholder(q: string, b: string, p: string)
    requires BraceFree(p) && BraceFree(q)
    ensures forall i :: 0 <= i < |Placeholder(q)| < i + |Placeholder(p)| ==>
      !OccursAt(Placeholder(q) + b, Placeholder(p), i)
  {
    var pat, x := Placeholder(p), Placeholder(q);
    forall i | 0 <= i < |x| < i + |pat| ensures !OccursAt(x + b, pat, i) {
      if i + |pat| <= |x + b| {
        if i == 0 {
          assert (x + b)[..|pat|][|q| + 1] == x[|q| + 1] == '}';
          assert pat[|q| + 1] == p[|q|] != '}';
        } else {
          assert x[i] != '{' by {
            if i <= |q| {
              assert x[i] == q[i - 1];
            }
          }
          assert (x + b)[i..i + |pat|][0] == x[i];
        }
      }
    }
  }

  /** `{q}` contains `{p}` only when the names are equal. */
  lemma PlaceholderOccurrences(q: string, p: string)
    requires BraceFree(p) && BraceFree(q) && p != q
    ensures forall i :: !OccursAt(Placeholder(q), Placeholder(p), i)
  {
  }

  /**
   * One replacement step around a placeholder `{q}` (names without braces):
   * the placeholder becomes `rep` when it is `{p}` and is kept otherwise, and
   * the text on either side is replaced independently.
   */
  lemma ReplaceAllAt(a: string, q: string, b: string, p: string, rep: string)
    requires BraceFree(p) && BraceFree(q)
    ensures ReplaceAll(a + Placeholder(q) + b, Placeholder(p), rep)
         == ReplaceAll(a, Placeholder(p), rep)
            + (if p == q then rep else Placeholder(q))
            + ReplaceAll(b, Placeholder(p), rep)
  {
    var pat, x := Placeholder(p), Placeholder(q);
    assert a + x + b == a + (x + b);
    ReplaceAllBeforePlaceholder(a, x + b, p, rep);
    ReplaceAllFromPlaceholder(q, b, p, rep);
  }

  /** Text in front of a placeholder is replaced on its own. */
  lemma ReplaceAllBeforePlaceholder(a: string, w: string, p: string, rep: string)
    requires BraceFree(p) && w != [] && w[0] == '{'
    ensures ReplaceAll(a + w, Placeholder(p), rep)
         == ReplaceAll(a, Placeholder(p), rep) + ReplaceAll(w, Placeholder(p), rep)
  {
    NoStraddleBeforeBrace(a, w, p);
    ReplaceAllConcat(a, w, Placeholder(p), rep);
  }

  /** A placeholder at the front is replaced or kept, and the rest is replaced on its own. */
  lemma ReplaceAllFromPlaceholder(q: string, b: string, p: string, rep: string)
    requires BraceFree(p) && BraceFree(q)
    ensures ReplaceAll(Placeholder(q) + b, Placeholder(p), rep)
         == (if p == q then rep else Placeholder(q)) + ReplaceAll(b, Placeholder(p), rep)
  {
    NoStraddleAfterPlaceholder(q, b, p);
    ReplaceAllConcat(Placeholder(q), b, Placeholder(p), rep);
    ReplacePlaceholder(q, p, rep);
  }

  /** The placeholder `{q}` alone: replaced when it is `{p}`, kept otherwise. */
  lemma ReplacePlaceholder(q: string, p: string, rep: string)
    requires BraceFree(p) && BraceFree(q)
    ensures ReplaceAll(Placeholder(q), Placeholder(p), rep) == if p == q then rep else Placeholder(q)
  {
    var pat, x := Placeholder(p), Placeholder(q);
    if p == q {
      assert x[..|pat|] == pat && x[|pat|..] == [];
      assert ReplaceAll(x, pat, rep) == rep + ReplaceAll([], pat, rep);
    } else {
      PlaceholderOccurrences(q, p);
      ReplaceAllNoOccurrence(x, pat, rep);
    }
  }

  // ---------------------------------------------------------------------------
  // The sequence of replacements
  // ---------------------------------------------------------------------------

  /** Every replacement, one after the other, in the order of the keys. */
  function ApplyReplacements(s: string, reps: seq<(string, Value)>): (r: string)
    ensures reps == [] ==> r == s
    decreases |reps|
  {
    if reps == [] then s
    else
      var last := reps[|reps| - 1];
      ReplaceAll(ApplyReplacements(s, reps[..|reps| - 1]), Placeholder(last.0), ToText(last.1))
  }

  /** The first replacement is applied first; later ones see the text it inserted. */
  lemma {:induction false} ApplyReplacementsFirst(s: string, p: string, v: Value, rest: seq<(string, Value)>)
    ensures ApplyReplacements(s, [(p, v)] + rest)
         == ApplyReplacements(ReplaceAll(s, Placeholder(p), ToText(v)), rest)
    decreases |rest|
  {
    var all := [(p, v)] + rest;
    if rest == [] {
      assert all[..|all| - 1] == [];
    } else {
      var init := rest[..|rest| - 1];
      assert all[..|all| - 1] == [(p, v)] + init;
      assert all[|all| - 1] == rest[|rest| - 1];
      ApplyReplacementsFirst(s, p, v, init);
    }
  }

  /** A placeholder whose name is not a replacement key survives every step. */
  lemma {:induction false} ApplyReplacementsKeepsOthers(a: string, q: string, b: string, reps: seq<(string, Value)>)
    requires BraceFree(q)
    requires forall k :: 0 <= k < |reps| ==> BraceFree(reps[k].0) && reps[k].0 != q
    ensures ApplyReplacements(a + Placeholder(q) + b, reps)
         == ApplyReplacements(a, reps) + Placeholder(q) + ApplyReplacements(b, reps)
    decreases |reps|
  {
    if reps != [] {
      var init, last := reps[..|reps| - 1], reps[|reps| - 1];
      ApplyReplacementsKeepsOthers(a, q, b, init);
      ReplaceAllAt(ApplyReplacements(a, init), q, ApplyReplacements(b, init), last.0, ToText(last.1));
    }
  }

  /** Text without an opening brace holds no placeholder and is returned unchanged. */
  lemma {:induction false} ApplyReplacementsPlainText(s: string, reps: seq<(string, Value)>)
    requires forall i :: 0 <= i < |s| ==> s[i] != '{'
    ensures ApplyReplacements(s, reps) == s
    decreases |reps|
  {
    if reps != [] {
      var init, last := reps[..|reps| - 1], reps[|reps| - 1];
      ApplyReplacementsPlainText(s, init);
      var pat, rep := Placeholder(last.0), ToText(last.1);
      PlainTextHoldsNoPlaceholder(s, pat);
      ReplaceAllNoOccurrence(s, pat, rep);
    }
  }

  /** A pattern opening with a brace occurs nowhere in text without one. */
  lemma PlainTextHoldsNoPlaceholder(s: string, pat: string)
    requires forall i :: 0 <= i < |s| ==> s[i] != '{'
    requires |pat| > 0 && pat[0] == '{'
    ensures forall i :: !OccursAt(s, pat, i)
  {
    forall i ensures !OccursAt(s, pat, i) {
      if 0 <= i && i + |pat| <= |s| {
        assert s[i..i + |pat|][0] == s[i] != '{';
      }
    }
  }

  /** An example of the ordering: `{a}` filled with `{b}`, which the next step fills with `x`. */
  lemma ChainedReplacement()
    ensures ApplyReplacements("{a}", [("a", Str("{b}")), ("b", Str("x"))]) == "x"
  {
    assert Placeholder("a") == "{a}" && Placeholder("b") == "{b}";
    ReplacePlaceholder("a", "a", "{b}");
    ReplacePlaceholder("b", "b", "x");
    ApplyReplacementsFirst("{a}", "a", Str("{b}"), [("b", Str("x"))]);
    ApplyReplacementsFirst("{b}", "b", Str("x"), []);
  }


  // ---------------------------------------------------------------------------
  // t
  // ---------------------------------------------------------------------------

  /**
   * `t`: the entry for `key` in the table of `lang` (or the key itself), with
   * every `{name}` placeholder of each replacement filled in, key after key.
   */
  method Translate(tr: Translations, lang: Language, key: string,
                   replacements: Option<seq<(string, Value)>>)
    returns (translation: string)
    ensures replacements.None? ==> translation == Lookup(tr.Table(lang), key)
    ensures replacements.Some? ==>
      translation == ApplyReplacements(Lookup(tr.Table(lang), key), replacements.value)
  {
    translation := Lookup(tr.Table(lang), key);
    if replacements.Some? {
      ghost var initial := translation;
      var reps := replacements.value;
      var i := 0;
      while i < |reps|
        invariant 0 <= i <= |reps|
        invariant translation == ApplyReplacements(initial, reps[..i])
      {
        var placeholder := reps[i].0;
        ApplyReplacementsStep(initial, reps, i);
        translation := ReplaceAll(translation, Placeholder(placeholder), ToText(reps[i].1));
        i := i + 1;
      }
      assert reps[..|reps|] == reps;
    }
  }

  /** The fold over the first `i + 1` replacements is the fold over the first `i`, one step further. */
  lemma ApplyReplacementsStep(s: string, reps: seq<(string, Value)>, i: int)
    requires 0 <= i < |reps|
    ensures ApplyReplacements(s, reps[..i + 1])
         == ReplaceAll(ApplyReplacements(s, reps[..i]), Placeholder(reps[i].0), ToText(reps[i].1))
  {
    var pre := reps[..i + 1];
    assert pre[..|pre| - 1] == reps[..i] && pre[|pre| - 1] == reps[i];
  }

  /**
   * A missing or empty entry falls back to the key's own name, and a key
   * without braces comes back unchanged whatever the replacements.
   */
  lemma TranslateFallback(tr: Translations, lang: Language, key: string, reps: seq<(string, Value)>)
    requires key !in tr.Table(lang) || tr.Table(lang)[key] == ""
    requires forall i :: 0 <= i < |key| ==> key[i] != '{'
    ensures ApplyReplacements(Lookup(tr.Table(lang), key), reps) == key
  {
    ApplyReplacementsPlainText(key, reps);
  }
}
