/** Company keys: names reduced to what two spellings of one company have in common. */
module Normalize {
  import opened Text

  /**
    What the program takes from Python's Unicode tables: lower case of one character, the class
    `\w` of regular expressions, and white space.
   */
  datatype Alphabet = Alphabet(lower: char -> string, word: char -> bool, space: char -> bool)

  /** A word character is never white space, nor are "+" and "&"; the blank is white space. */
  ghost predicate Lawful(u: Alphabet) {
    u.space(' ') && !u.space('+') && !u.space('&') && forall c :: u.word(c) ==> !u.space(c)
  }

  function LowerAll(u: Alphabet, s: string): string {
    if s == [] then s else u.lower(s[0]) + LowerAll(u, s[1..])
  }

  function StripLeft(u: Alphabet, s: string): string {
    if s != [] && u.space(s[0]) then StripLeft(u, s[1..]) else s
  }

  function StripRight(u: Alphabet, s: string): string {
    if s != [] && u.space(s[|s| - 1]) then StripRight(u, s[..|s| - 1]) else s
  }

  /** `s.strip()`. */
  function Strip(u: Alphabet, s: string): string {
    StripRight(u, StripLeft(u, s))
  }

  lemma {:induction false} LeftStripped(u: Alphabet, s: string) returns (before: string)
    ensures s == before + StripLeft(u, s) && forall c :: c in before ==> u.space(c)
    ensures StripLeft(u, s) != "" ==> !u.space(StripLeft(u, s)[0])
  {
    if s != [] && u.space(s[0]) {
      before := LeftStripped(u, s[1..]);
      before := [s[0]] + before;
    } else {
      before := [];
    }
  }

  lemma {:induction false} RightStripped(u: Alphabet, s: string) returns (after: string)
    ensures s == StripRight(u, s) + after && forall c :: c in after ==> u.space(c)
    ensures StripRight(u, s) != "" ==> !u.space(StripRight(u, s)[|StripRight(u, s)| - 1])
  {
    if s != [] && u.space(s[|s| - 1]) {
      after := RightStripped(u, s[..|s| - 1]);
      after := after + [s[|s| - 1]];
    } else {
      after := [];
    }
  }

  /** Only white space is stripped, from both ends, and all of it. */
  lemma StrippedEnds(u: Alphabet, s: string) returns (before: string, after: string)
    ensures s == before + Strip(u, s) + after
    ensures (forall c :: c in before ==> u.space(c)) && (forall c :: c in after ==> u.space(c))
    ensures var t := Strip(u, s); t != "" ==> !u.space(t[0]) && !u.space(t[|t| - 1])
  {
    before := LeftStripped(u, s);
    after := RightStripped(u, StripLeft(u, s));
  }

  function Replace(s: string, from: set<char>, to: char): string {
    seq(|s|, i requires 0 <= i < |s| => if s[i] in from then to else s[i])
  }

  /** A character of a company key: `[\w+&]`. */
  predicate Kept(u: Alphabet, c: char) {
    u.word(c) || c == '+' || c == '&'
  }

  function DropOthers(u: Alphabet, s: string): (t: string)
    ensures |t| <= |s| && (t != [] ==> Kept(u, t[0]))
  {
    if s == [] || Kept(u, s[0]) then s else DropOthers(u, s[1..])
  }

  /** `re.sub(r"[^\w+&]+", " ", s)`. */
  function Collapse(u: Alphabet, s: string): (t: string)
    ensures forall c :: c in t ==> Kept(u, c) || c == ' '
    decreases |s|
  {
    if s == [] then ""
    else if Kept(u, s[0]) then [s[0]] + Collapse(u, s[1..])
    else [' '] + Collapse(u, DropOthers(u, s[1..]))
  }

  /** Length of the run of characters before the first white space. */
  function WordLength(u: Alphabet, s: string): (n: nat)
    ensures n <= |s| && forall i :: 0 <= i < n ==> !u.space(s[i])
  {
    if s == [] || u.space(s[0]) then 0 else 1 + WordLength(u, s[1..])
  }

  /** `s.split()`: the maximal runs of characters that are not white space. */
  function Words(u: Alphabet, s: string): (words: seq<string>)
    ensures forall w :: w in words ==> w != "" && forall c :: c in w ==> !u.space(c) && c in s
    decreases |s|
  {
    if s == [] then []
    else if u.space(s[0]) then Words(u, s[1..])
    else
      var n := WordLength(u, s);
      [s[..n]] + Words(u, s[n..])
  }

  const LEGAL_FORMS: set<string> :=
    {"ооо", "оао", "зао", "пао", "ао", "ип", "llc", "ltd", "inc", "gmbh", "ag", "sa", "plc"}

  function WithoutLegalForms(words: seq<string>): (rest: seq<string>)
    ensures forall w :: w in rest ==> w in words && w !in LEGAL_FORMS
  {
    if words == [] then []
    else if words[0] in LEGAL_FORMS then WithoutLegalForms(words[1..])
    else [words[0]] + WithoutLegalForms(words[1..])
  }

  /** Cyrillic letters that look like Latin ones become those. */
  function Homoglyph(c: char): (d: char)
    ensures d == ' ' <==> c == ' '
  {
    match c
    case 'а' => 'a' case 'в' => 'b' case 'е' => 'e' case 'к' => 'k' case 'м' => 'm' case 'н' => 'h'
    case 'о' => 'o' case 'р' => 'p' case 'с' => 'c' case 'т' => 't' case 'у' => 'y' case 'х' => 'x'
    case _ => c
  }

  function Translate(s: string): (t: string)
    ensures |t| == |s| && forall i :: 0 <= i < |s| ==> t[i] == Homoglyph(s[i])
  {
    seq(|s|, i requires 0 <= i < |s| => Homoglyph(s[i]))
  }

  const QUOTES: set<char> := {'«', '»', '"', '\'', '`', '“', '”', '„'}

  /** In lower case, without the letter ё, quotes as blanks. */
  function Folded(u: Alphabet, name: string): string {
    Replace(Replace(LowerAll(u, name), {'ё'}, 'е'), QUOTES, ' ')
  }

  /** The words that count. */
  function WordsOf(u: Alphabet, name: string): seq<string> {
    WithoutLegalForms(Words(u, Collapse(u, Folded(u, name))))
  }

  /** `normalize_company`. */
  function Key(u: Alphabet, name: string): string {
    Translate(Join(WordsOf(u, name), ' '))
  }

  // ---- the shape of keys ----

  /** Words without blanks, one blank between each two: the words of a key are its pieces. */
  predicate KeyShape(key: string) {
    key != "" ==> forall w :: w in Split(key, ' ') ==> w != ""
  }

  lemma {:induction false} TranslateJoin(words: seq<string>)
    ensures Translate(Join(words, ' ')) == Join(seq(|words|, i requires 0 <= i < |words| => Translate(words[i])), ' ')
  {
    var translated := seq(|words|, i requires 0 <= i < |words| => Translate(words[i]));
    if |words| > 1 {
      TranslateJoin(words[1..]);
      assert translated[1..] == seq(|words| - 1, i requires 0 <= i < |words| - 1 => Translate(words[1..][i]));
    }
  }

  /** Every key is empty or a list of non-empty words separated by single blanks. */
  lemma KeysAreWordLists(u: Alphabet, name: string)
    requires Lawful(u)
    ensures KeyShape(Key(u, name))
  {
    var words := WordsOf(u, name);
    var translated := seq(|words|, i requires 0 <= i < |words| => Translate(words[i]));
    forall w | w in translated ensures w != "" && ' ' !in w {
      var i :| 0 <= i < |translated| && translated[i] == w;
      assert words[i] in words;
      assert forall c :: c in words[i] ==> !u.space(c);
    }
    TranslateJoin(words);
    if words != [] {
      SplitJoin(translated, ' ');
    }
  }

  const LOOKALIKES: set<char> := {'а', 'в', 'е', 'к', 'м', 'н', 'о', 'р', 'с', 'т', 'у', 'х'}

  /** No letter that looks like a Latin one is left in a key. */
  lemma KeysHaveNoLookalikes(u: Alphabet, name: string)
    ensures forall c :: c in Key(u, name) ==> c !in LOOKALIKES
  {
  }

  // ---- what keys forget ----

  lemma {:induction false} LowerConcat(u: Alphabet, a: string, b: string)
    ensures LowerAll(u, a + b) == LowerAll(u, a) + LowerAll(u, b)
  {
    if a == [] {
      assert a + b == b;
    } else {
      assert (a + b)[1..] == a[1..] + b;
      LowerConcat(u, a[1..], b);
    }
  }

  lemma FoldedConcat(u: Alphabet, a: string, b: string)
    ensures Folded(u, a + b) == Folded(u, a) + Folded(u, b)
  {
    LowerConcat(u, a, b);
  }

  function CollapsedWords(u: Alphabet, s: string): seq<string> {
    Words(u, Collapse(u, s))
  }

  lemma {:induction false} DroppedWords(u: Alphabet, s: string)
    requires Lawful(u)
    ensures CollapsedWords(u, DropOthers(u, s)) == CollapsedWords(u, s)
    decreases |s|
  {
    if s != [] && !Kept(u, s[0]) {
      assert DropOthers(u, s) == DropOthers(u, s[1..]);
      assert Collapse(u, s)[1..] == Collapse(u, DropOthers(u, s[1..]));
    }
  }

  /** A leading separator does not matter. */
  lemma SeparatorFirst(u: Alphabet, x: char, s: string)
    requires Lawful(u) && !Kept(u, x)
    ensures CollapsedWords(u, [x] + s) == CollapsedWords(u, s)
  {
    assert ([x] + s)[1..] == s;
    DroppedWords(u, s);
    assert Collapse(u, [x] + s)[1..] == Collapse(u, DropOthers(u, s));
  }

  predicate AllKept(u: Alphabet, s: string) {
    forall i :: 0 <= i < |s| ==> Kept(u, s[i])
  }

  lemma {:induction false} CollapseRun(u: Alphabet, run: string, s: string)
    requires AllKept(u, run)
    ensures Collapse(u, run + s) == run + Collapse(u, s)
  {
    if run == [] {
      assert run + s == s;
    } else {
      assert (run + s)[1..] == run[1..] + s;
      CollapseRun(u, run[1..], s);
      assert [run[0]] + run[1..] == run;
    }
  }

  lemma {:induction false} WordLengthRun(u: Alphabet, run: string, s: string)
    requires forall i :: 0 <= i < |run| ==> !u.space(run[i])
    requires s != [] ==> u.space(s[0])
    ensures WordLength(u, run + s) == |run|
  {
    if run == [] {
      assert run + s == s;
    } else {
      assert (run + s)[1..] == run[1..] + s;
      WordLengthRun(u, run[1..], s);
    }
  }

  lemma WordsRun(u: Alphabet, run: string, s: string)
    requires run != [] && forall i :: 0 <= i < |run| ==> !u.space(run[i])
    requires s != [] ==> u.space(s[0])
    ensures Words(u, run + s) == [run] + Words(u, s)
  {
    WordLengthRun(u, run, s);
    assert (run + s)[..|run|] == run && (run + s)[|run|..] == s;
  }

  /** A run of kept characters is one word. */
  lemma RunFirst(u: Alphabet, run: string, s: string)
    requires Lawful(u) && run != [] && AllKept(u, run) && (s != [] ==> !Kept(u, s[0]))
    ensures CollapsedWords(u, run + s) == [run] + CollapsedWords(u, s)
  {
    CollapseRun(u, run, s);
    WordsRun(u, run, Collapse(u, s));
  }

  function KeptLength(u: Alphabet, s: string): (n: nat)
    ensures n <= |s| && AllKept(u, s[..n]) && (n < |s| ==> !Kept(u, s[n]))
  {
    if s == [] || !Kept(u, s[0]) then 0 else 1 + KeptLength(u, s[1..])
  }

  lemma {:induction false} WordsConcat(u: Alphabet, a: string, x: char, b: string)
    requires Lawful(u) && !Kept(u, x)
    ensures CollapsedWords(u, a + [x] + b) == CollapsedWords(u, a) + CollapsedWords(u, b)
    decreases |a|
  {
    if a == [] {
      assert a + [x] + b == [x] + b;
      SeparatorFirst(u, x, b);
    } else if !Kept(u, a[0]) {
      assert a == [a[0]] + a[1..];
      assert a + [x] + b == [a[0]] + (a[1..] + [x] + b);
      SeparatorFirst(u, a[0], a[1..]);
      SeparatorFirst(u, a[0], a[1..] + [x] + b);
      WordsConcat(u, a[1..], x, b);
    } else {
      var n := KeptLength(u, a);
      var run, rest := a[..n], a[n..];
      assert a == run + rest;
      assert a + [x] + b == run + (rest + [x] + b);
      RunFirst(u, run, rest);
      RunFirst(u, run, rest + [x] + b);
      WordsConcat(u, rest, x, b);
    }
  }

  lemma {:induction false} LegalFormsConcat(a: seq<string>, b: seq<string>)
    ensures WithoutLegalForms(a + b) == WithoutLegalForms(a) + WithoutLegalForms(b)
  {
    if a == [] {
      assert a + b == b;
    } else {
      assert (a + b)[1..] == a[1..] + b;
      LegalFormsConcat(a[1..], b);
    }
  }

  /** A character that only separates words: punctuation, quotes, blanks. */
  predicate Separator(u: Alphabet, c: char) {
    |Folded(u, [c])| == 1 && !Kept(u, Folded(u, [c])[0])
  }

  /** A name in two parts has the words of both, whatever separates them. */
  lemma WordsOfParts(u: Alphabet, a: string, separator: char, b: string)
    requires Lawful(u) && Separator(u, separator)
    ensures WordsOf(u, a + [separator] + b) == WordsOf(u, a) + WordsOf(u, b)
  {
    var x := Folded(u, [separator])[0];
    FoldedConcat(u, a + [separator], b);
    FoldedConcat(u, a, [separator]);
    assert Folded(u, a + [separator] + b) == Folded(u, a) + [x] + Folded(u, b);
    WordsConcat(u, Folded(u, a), x, Folded(u, b));
    LegalFormsConcat(CollapsedWords(u, Folded(u, a)), CollapsedWords(u, Folded(u, b)));
  }

  /** Which punctuation stands between the parts of a name does not matter: «Кока-Кола», «Кока Кола». */
  lemma PunctuationIsForgotten(u: Alphabet, a: string, x: char, y: char, b: string)
    requires Lawful(u) && Separator(u, x) && Separator(u, y)
    ensures Key(u, a + [x] + b) == Key(u, a + [y] + b)
  {
    WordsOfParts(u, a, x, b);
    WordsOfParts(u, a, y, b);
  }

  /** Pairs of quotes, upper and lower, and the single ones. */
  lemma QuotesAre(c: char)
    ensures c in QUOTES <==> c as int in {0x22, 0x27, 0x60, 0xAB, 0xBB, 0x201C, 0x201D, 0x201E}
  {
  }

  /** «ао», «ип», and three letters on «о». */
  predicate RussianForm(w: string) {
    || (|w| == 2 && ((w[0] == 'а' && w[1] == 'о') || (w[0] == 'и' && w[1] == 'п')))
    || (|w| == 3 && w[2] == 'о' && ((w[0] in "озп" && w[1] == 'а') || (w[0] == 'о' && w[1] == 'о')))
  }

  predicate ForeignForm(w: string) {
    || (|w| == 2 && ((w[0] == 'a' && w[1] == 'g') || (w[0] == 's' && w[1] == 'a')))
    || (|w| == 3 && w[0] == 'l' && ((w[1] == 'l' && w[2] == 'c') || (w[1] == 't' && w[2] == 'd')))
    || (|w| == 3 && w[2] == 'c' && ((w[0] == 'i' && w[1] == 'n') || (w[0] == 'p' && w[1] == 'l')))
    || (|w| == 4 && w[0] == 'g' && w[1] == 'm' && w[2] == 'b' && w[3] == 'h')
  }

  /** The legal forms, letter by letter. */
  lemma LegalFormsAre(w: string)
    ensures w in LEGAL_FORMS <==> RussianForm(w) || ForeignForm(w)
  {
    if RussianForm(w) || ForeignForm(w) {
      assert w == if |w| == 2 then [w[0], w[1]] else if |w| == 3 then [w[0], w[1], w[2]] else [w[0], w[1], w[2], w[3]];
    }
  }

  lemma OneWordDropped(w: string)
    requires w in LEGAL_FORMS
    ensures WithoutLegalForms([w]) == []
  {
    assert [w][1..] == [];
  }

  lemma OneWord(u: Alphabet, w: string)
    requires Lawful(u) && w != "" && AllKept(u, w)
    ensures CollapsedWords(u, w) == [w]
  {
    RunFirst(u, w, "");
    assert w + "" == w && CollapsedWords(u, "") == [];
  }

  /** A legal form before or after the name does not matter. */
  lemma LegalFormIsForgotten(u: Alphabet, form: string, separator: char, name: string)
    requires Lawful(u) && Separator(u, separator)
    requires Folded(u, form) in LEGAL_FORMS && Folded(u, form) != "" && AllKept(u, Folded(u, form))
    ensures Key(u, form + [separator] + name) == Key(u, name)
    ensures Key(u, name + [separator] + form) == Key(u, name)
  {
    OneWord(u, Folded(u, form));
    OneWordDropped(Folded(u, form));
    WordsOfParts(u, form, separator, name);
    WordsOfParts(u, name, separator, form);
    assert [] + WordsOf(u, name) == WordsOf(u, name) && WordsOf(u, name) + [] == WordsOf(u, name);
  }

  // ---- look-alikes ----

  /** The twelve pairs of a Cyrillic letter and the Latin one that looks like it. */
  predicate LooksLike(c: char, d: char) {
    || (c == 'а' && d == 'a') || (c == 'в' && d == 'b') || (c == 'е' && d == 'e') || (c == 'к' && d == 'k')
    || (c == 'м' && d == 'm') || (c == 'н' && d == 'h') || (c == 'о' && d == 'o') || (c == 'р' && d == 'p')
    || (c == 'с' && d == 'c') || (c == 'т' && d == 't') || (c == 'у' && d == 'y') || (c == 'х' && d == 'x')
  }

  predicate SameLook(c: char, d: char) {
    c == d || LooksLike(c, d) || LooksLike(d, c)
  }

  /** The strings differ at most in look-alikes, and look-alikes are word characters. */
  ghost predicate Alike(u: Alphabet, s: string, t: string) {
    |s| == |t| && forall i :: 0 <= i < |s| ==> s[i] == t[i] || (SameLook(s[i], t[i]) && u.word(s[i]) && u.word(t[i]))
  }

  ghost predicate AlikeWords(u: Alphabet, v: seq<string>, w: seq<string>) {
    |v| == |w| && forall i :: 0 <= i < |v| ==> Alike(u, v[i], w[i])
  }

  lemma SameLookSameLetter(c: char, d: char)
    requires SameLook(c, d)
    ensures Homoglyph(c) == Homoglyph(d)
  {
  }

  lemma AlikeTranslated(u: Alphabet, s: string, t: string)
    requires Alike(u, s, t)
    ensures Translate(s) == Translate(t)
  {
    forall i | 0 <= i < |s| ensures Homoglyph(s[i]) == Homoglyph(t[i]) {
      SameLookSameLetter(s[i], t[i]);
    }
  }

  lemma NotFoldedAway(c: char, d: char)
    requires SameLook(c, d) && c != d
    ensures c != 'ё' && d != 'ё' && c !in QUOTES && d !in QUOTES
  {
  }

  lemma AlikeReplaced(u: Alphabet, s: string, t: string, from: set<char>, to: char)
    requires Alike(u, s, t) && forall c, d :: SameLook(c, d) && c != d ==> c !in from && d !in from
    ensures Alike(u, Replace(s, from, to), Replace(t, from, to))
  {
  }

  lemma AlikeFolded(u: Alphabet, a: string, b: string)
    requires Alike(u, LowerAll(u, a), LowerAll(u, b))
    ensures Alike(u, Folded(u, a), Folded(u, b))
  {
    forall c, d | SameLook(c, d) && c != d ensures c !in {'ё'} && d !in {'ё'} && c !in QUOTES && d !in QUOTES {
      NotFoldedAway(c, d);
    }
    AlikeReplaced(u, LowerAll(u, a), LowerAll(u, b), {'ё'}, 'е');
    AlikeReplaced(u, Replace(LowerAll(u, a), {'ё'}, 'е'), Replace(LowerAll(u, b), {'ё'}, 'е'), QUOTES, ' ');
  }

  lemma {:induction false} AlikeDropped(u: Alphabet, s: string, t: string)
    requires Alike(u, s, t)
    ensures Alike(u, DropOthers(u, s), DropOthers(u, t))
  {
    if s != [] && !Kept(u, s[0]) {
      assert s[0] == t[0];
      AlikeDropped(u, s[1..], t[1..]);
    }
  }

  lemma {:induction false} AlikeCollapsed(u: Alphabet, s: string, t: string)
    requires Alike(u, s, t)
    ensures Alike(u, Collapse(u, s), Collapse(u, t))
    decreases |s|
  {
    if s == [] {
    } else if Kept(u, s[0]) {
      AlikeCollapsed(u, s[1..], t[1..]);
    } else {
      assert s[0] == t[0];
      AlikeDropped(u, s[1..], t[1..]);
      AlikeCollapsed(u, DropOthers(u, s[1..]), DropOthers(u, t[1..]));
    }
  }

  lemma {:induction false} AlikeWordLength(u: Alphabet, s: string, t: string)
    requires Lawful(u) && Alike(u, s, t)
    ensures WordLength(u, s) == WordLength(u, t)
  {
    if s != [] && !u.space(s[0]) {
      AlikeWordLength(u, s[1..], t[1..]);
    }
  }

  lemma {:induction false} AlikeSplit(u: Alphabet, s: string, t: string)
    requires Lawful(u) && Alike(u, s, t)
    ensures AlikeWords(u, Words(u, s), Words(u, t))
    decreases |s|
  {
    if s == [] {
    } else if u.space(s[0]) {
      assert s[0] == t[0];
      AlikeSplit(u, s[1..], t[1..]);
    } else {
      var n := WordLength(u, s);
      AlikeWordLength(u, s, t);
      AlikeSplit(u, s[n..], t[n..]);
    }
  }

  lemma {:induction false} AlikeJoined(u: Alphabet, v: seq<string>, w: seq<string>)
    requires AlikeWords(u, v, w)
    ensures Alike(u, Join(v, ' '), Join(w, ' '))
  {
    if |v| > 1 {
      AlikeJoined(u, v[1..], w[1..]);
    }
  }

  /** None of the words of the name is a legal form. */
  ghost predicate NoLegalForm(u: Alphabet, name: string) {
    forall w :: w in CollapsedWords(u, Folded(u, name)) ==> w !in LEGAL_FORMS
  }

  lemma {:induction false} NothingDropped(words: seq<string>)
    requires forall w :: w in words ==> w !in LEGAL_FORMS
    ensures WithoutLegalForms(words) == words
  {
    if words != [] {
      NothingDropped(words[1..]);
    }
  }

  /** Names whose lower-case forms differ only in look-alikes have the same key: Cyrillic «Х5» and Latin «X5». */
  lemma LookalikesAreForgotten(u: Alphabet, a: string, b: string)
    requires Lawful(u) && Alike(u, LowerAll(u, a), LowerAll(u, b)) && NoLegalForm(u, a) && NoLegalForm(u, b)
    ensures Key(u, a) == Key(u, b)
  {
    AlikeFolded(u, a, b);
    AlikeCollapsed(u, Folded(u, a), Folded(u, b));
    AlikeSplit(u, Collapse(u, Folded(u, a)), Collapse(u, Folded(u, b)));
    NothingDropped(WordsOf(u, a));
    NothingDropped(CollapsedWords(u, Folded(u, a)));
    NothingDropped(CollapsedWords(u, Folded(u, b)));
    AlikeJoined(u, WordsOf(u, a), WordsOf(u, b));
    AlikeTranslated(u, Join(WordsOf(u, a), ' '), Join(WordsOf(u, b), ' '));
  }

  /** In particular names that differ in one letter, which has no other lower case. */
  lemma OneLookalikeIsForgotten(u: Alphabet, before: string, c: char, d: char, after: string)
    requires Lawful(u) && LooksLike(c, d) && u.word(c) && u.word(d) && u.lower(c) == [c] && u.lower(d) == [d]
    requires NoLegalForm(u, before + [c] + after) && NoLegalForm(u, before + [d] + after)
    ensures Key(u, before + [c] + after) == Key(u, before + [d] + after)
  {
    LowerConcat(u, before + [c], after);
    LowerConcat(u, before + [d], after);
    LowerConcat(u, before, [c]);
    LowerConcat(u, before, [d]);
    LowerOne(u, c);
    LowerOne(u, d);
    LookalikesAreForgotten(u, before + [c] + after, before + [d] + after);
  }

  lemma LowerOne(u: Alphabet, c: char)
    ensures LowerAll(u, [c]) == u.lower(c)
  {
    assert [c][1..] == [] && u.lower(c) + [] == u.lower(c);
  }

  // ---- what keys keep ----

  /** Neither case nor the letter ё matters. */
  lemma CaseIsForgotten(u: Alphabet, a: string, b: string)
    requires LowerAll(u, a) == LowerAll(u, b)
    ensures Key(u, a) == Key(u, b)
  {
  }

  lemma YoIsForgotten(u: Alphabet, before: string, after: string)
    requires u.lower('ё') == ['ё'] && u.lower('е') == ['е']
    ensures Key(u, before + ['ё'] + after) == Key(u, before + ['е'] + after)
  {
    LowerConcat(u, before + ['ё'], after);
    LowerConcat(u, before + ['е'], after);
    LowerConcat(u, before, ['ё']);
    LowerConcat(u, before, ['е']);
    LowerOne(u, 'ё');
    LowerOne(u, 'е');
    assert Folded(u, before + ['ё'] + after) == Folded(u, before + ['е'] + after);
  }

  /** A word of letters, digits, "+" and "&" in lower case is kept as it is, up to look-alikes. */
  lemma PlainWordIsKept(u: Alphabet, w: string)
    requires Lawful(u) && w != "" && LowerAll(u, w) == w && w !in LEGAL_FORMS && 'ё' !in w
    requires forall c :: c in w ==> (u.word(c) || c == '+' || c == '&') && c !in QUOTES
    ensures Key(u, w) == Translate(w)
  {
    assert Folded(u, w) == w;
    OneWord(u, w);
    NothingDropped([w]);
  }
}
