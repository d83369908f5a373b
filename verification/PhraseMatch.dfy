/** Recognising an app's name in on-screen labels (packages/autoinstall/sources/FreeInstallConfirmation.h:3-50),
    over ASCII letters and digits. */
module PhraseMatch {
  import opened Characters

  predicate Word(t: string) {
    t != "" && forall i | 0 <= i < |t| :: AlphaNumeric(t[i]) && LowerChar(t[i]) == t[i]
  }

  predicate Words(ts: seq<string>) {
    forall i | 0 <= i < |ts| :: Word(ts[i])
  }

  /** The words of a text: its runs of letters and digits, lower-cased. The last one may still be growing. */
  function Tokens(s: string): seq<string> {
    if s == "" then []
    else
      var before, c := Tokens(s[..|s| - 1]), s[|s| - 1];
      if !AlphaNumeric(c) then before
      else if |s| > 1 && AlphaNumeric(s[|s| - 2]) && before != [] then
        before[..|before| - 1] + [before[|before| - 1] + [LowerChar(c)]]
      else before + [[LowerChar(c)]]
  }

  /** Words each followed by one space. */
  function Body(ts: seq<string>): string {
    if ts == [] then "" else Body(ts[..|ts| - 1]) + ts[|ts| - 1] + " "
  }

  /** Words joined by single spaces. */
  function Join(ts: seq<string>): string {
    if ts == [] then "" else Body(ts[..|ts| - 1]) + ts[|ts| - 1]
  }

  /** autoinstallCanonicalAppName: separators collapse to one space, ends are trimmed, letters lower-cased. */
  method CanonicalAppName(value: string) returns (canonical: string)
    ensures canonical == Join(Tokens(value))
  {
    hide Tokens, Join, Body, Lower;
    Nothing();
    canonical := "";
    var separated := false;
    assert value[..0] == "";
    for i := 0 to |value|
      invariant Lower(canonical) == if separated then Body(Tokens(value[..i])) else Join(Tokens(value[..i]))
      invariant separated ==> i > 0 && !AlphaNumeric(value[i - 1]) && Tokens(value[..i]) != []
      invariant !separated && i > 0 && !AlphaNumeric(value[i - 1]) ==> Tokens(value[..i]) == []
      invariant !separated && i > 0 && AlphaNumeric(value[i - 1]) ==> Tokens(value[..i]) != []
      invariant canonical == "" <==> Tokens(value[..i]) == []
      invariant Words(Tokens(value[..i]))
    {
      var c := value[i];
      TokensNext(value, i);
      LowerNext(canonical, c);
      LowerNext(canonical, ' ');
      TokensAreWords(value[..i + 1]);
      if AlphaNumeric(c) {
        canonical := canonical + [c];
        separated := false;
      } else if canonical != "" && !separated {
        BodyIsJoin(Tokens(value[..i]));
        canonical := canonical + " ";
        separated := true;
      }
    }
    assert value[..|value|] == value;
    if separated {
      BodyIsJoin(Tokens(value));
      LowerEnds(canonical);
      assert Lower(canonical)[..|canonical| - 1] == Lower(canonical[..|canonical| - 1]);
      assert (Join(Tokens(value)) + " ")[..|Join(Tokens(value))|] == Join(Tokens(value));
      canonical := canonical[..|canonical| - 1];
    }
    canonical := Lower(canonical);
  }

  lemma Nothing()
    ensures Lower("") == "" && Tokens("") == [] && Join([]) == "" && Body([]) == ""
  {
  }

  lemma LowerNext(s: string, c: char)
    ensures Lower(s + [c]) == Lower(s) + [LowerChar(c)]
  {
  }

  lemma LowerEnds(s: string)
    requires s != ""
    ensures Lower(s) == Lower(s[..|s| - 1]) + [LowerChar(s[|s| - 1])]
  {
  }

  lemma BodyIsJoin(ts: seq<string>)
    requires ts != []
    ensures Body(ts) == Join(ts) + " "
  {
  }

  /** One more character: it extends the last word, begins one, or adds nothing. */
  lemma TokensNext(s: string, i: nat)
    requires i < |s|
    ensures var before, c := Tokens(s[..i]), s[i];
            Tokens(s[..i + 1]) ==
              if !AlphaNumeric(c) then before
              else if i > 0 && AlphaNumeric(s[i - 1]) && before != [] then
                before[..|before| - 1] + [before[|before| - 1] + [LowerChar(c)]]
              else before + [[LowerChar(c)]]
    ensures var before, c := Tokens(s[..i]), s[i];
            AlphaNumeric(c) ==>
              Join(Tokens(s[..i + 1])) ==
                (if i > 0 && AlphaNumeric(s[i - 1]) && before != [] then Join(before) else Body(before)) + [LowerChar(c)]
  {
    assert s[..i + 1][..i] == s[..i];
    var before, after, c := Tokens(s[..i]), Tokens(s[..i + 1]), s[i];
    if AlphaNumeric(c) {
      if i > 0 && AlphaNumeric(s[i - 1]) && before != [] {
        assert after[..|after| - 1] == before[..|before| - 1];
      } else {
        assert after[..|after| - 1] == before;
      }
    }
  }

  lemma {:induction false} TokensAreWords(s: string)
    ensures Words(Tokens(s))
  {
    if s == "" {
    } else {
      TokensAreWords(s[..|s| - 1]);
    }
  }

  // ---------------------------------------------------------------- canonical text is its own canonical text

  lemma NoSpaceInWord(t: string)
    requires Word(t)
    ensures forall i | 0 <= i < |t| :: t[i] != ' '
  {
  }

  lemma TokensSnoc(s: string, c: char)
    requires AlphaNumeric(c)
    ensures var before := Tokens(s);
            Tokens(s + [c]) ==
              if s != "" && AlphaNumeric(s[|s| - 1]) && before != [] then
                before[..|before| - 1] + [before[|before| - 1] + [LowerChar(c)]]
              else before + [[LowerChar(c)]]
  {
  }

  /** A word after a separator is a new word. */
  lemma {:induction false} TokensOfAppended(s: string, t: string)
    requires Word(t) && (s == "" || !AlphaNumeric(s[|s| - 1]))
    ensures Tokens(s + t) == Tokens(s) + [t]
    decreases |t|
  {
    hide Tokens;
    var n := |t| - 1;
    var u := t[..n];
    assert s + t == (s + u) + [t[n]];
    TokensSnoc(s + u, t[n]);
    if n == 0 {
      assert s + u == s && t == [t[0]];
    } else {
      TokensOfAppended(s, u);
      assert (s + u)[|s + u| - 1] == t[n - 1];
      var before := Tokens(s) + [u];
      assert before[..|before| - 1] == Tokens(s) && before[|before| - 1] == u;
      assert t == u + [t[n]];
    }
  }

  lemma TokensOfSpaced(s: string)
    ensures Tokens(s + " ") == Tokens(s)
  {
  }

  lemma {:induction false} TokensOfBody(ts: seq<string>)
    requires Words(ts)
    ensures Tokens(Body(ts)) == ts && (Body(ts) != "" ==> Body(ts)[|Body(ts)| - 1] == ' ')
  {
    hide Tokens;
    if ts == [] {
      Nothing();
    } else {
      var before, t := ts[..|ts| - 1], ts[|ts| - 1];
      TokensOfBody(before);
      TokensOfAppended(Body(before), t);
      TokensOfSpaced(Body(before) + t);
      assert ts == before + [t];
    }
  }

  lemma TokensOfJoin(ts: seq<string>)
    requires Words(ts)
    ensures Tokens(Join(ts)) == ts
  {
    hide Tokens, Body;
    if ts == [] {
      Nothing();
    } else {
      var before, t := ts[..|ts| - 1], ts[|ts| - 1];
      TokensOfBody(before);
      TokensOfAppended(Body(before), t);
      assert ts == before + [t];
    }
  }

  /** Canonicalisation is idempotent. */
  lemma CanonicalTwice(s: string)
    ensures Join(Tokens(Join(Tokens(s)))) == Join(Tokens(s))
  {
    TokensAreWords(s);
    TokensOfJoin(Tokens(s));
  }

  // ---------------------------------------------------------------- padded substrings are runs of words

  predicate Occurs(part: string, whole: string, k: nat) {
    k + |part| <= |whole| && whole[k..k + |part|] == part
  }

  ghost predicate Contains(whole: string, part: string) {
    exists k: nat :: Occurs(part, whole, k)
  }

  predicate RunAt(phrase: seq<string>, text: seq<string>, i: nat) {
    i + |phrase| <= |text| && text[i..i + |phrase|] == phrase
  }

  /** The words of the phrase are consecutive words of the text. */
  ghost predicate RunOf(phrase: seq<string>, text: seq<string>) {
    exists i: nat :: RunAt(phrase, text, i)
  }

  lemma BodyLast(ts: seq<string>)
    requires ts != []
    ensures Body(ts) == Body(ts[..|ts| - 1]) + ts[|ts| - 1] + " "
  {
  }

  lemma {:induction false} BodyConcat(a: seq<string>, b: seq<string>)
    ensures Body(a + b) == Body(a) + Body(b)
  {
    if b == [] {
      assert a + b == a;
    } else {
      var n := |b| - 1;
      BodyConcat(a, b[..n]);
      BodyLast(b);
      BodyLast(a + b);
      hide Body;
      assert (a + b)[..|a + b| - 1] == a + b[..n];
    }
  }

  lemma BodyFirst(ts: seq<string>)
    requires ts != []
    ensures Body(ts) == ts[0] + " " + Body(ts[1..])
  {
    assert ts == [ts[0]] + ts[1..];
    BodyConcat([ts[0]], ts[1..]);
    assert Body([ts[0]]) == "" + ts[0] + " ";
  }

  lemma SpaceInside(p: string, x: string, l: string, y: string)
    requires (p + " " + x <= l + " " + y || l + " " + y <= p + " " + x) && |p| < |l| && |p + " "| <= |l + " " + y|
    ensures l[|p|] == ' '
  {
    assert (p + " " + x)[|p|] == ' ' && (l + " " + y)[|p|] == l[|p|];
  }

  /** Two texts that begin with a word and a space, one a prefix of the other, begin with the same word. */
  lemma SameFirstWord(p: string, x: string, l: string, y: string)
    requires Word(p) && Word(l) && p + " " + x <= l + " " + y
    ensures p == l && x <= y
  {
    if |p| < |l| {
      SpaceInside(p, x, l, y);
    } else if |l| < |p| {
      SpaceInside(l, y, p, x);
    } else {
      var a, b := p + " " + x, l + " " + y;
      assert p == a[..|p|] && l == b[..|p|];
      assert x == a[|p| + 1..] && y == b[|p| + 1..];
    }
  }

  /** Among words, being a prefix letter by letter is being a prefix word by word. */
  lemma {:induction false} PrefixIsWordPrefix(phrase: seq<string>, caption: seq<string>)
    requires Words(phrase) && Words(caption)
    ensures Body(phrase) <= Body(caption) <==> phrase <= caption
    decreases |phrase|
  {
    if phrase == [] {
    } else {
      BodyFirst(phrase);
      if caption != [] {
        BodyFirst(caption);
        PrefixIsWordPrefix(phrase[1..], caption[1..]);
        if Body(phrase) <= Body(caption) {
          SameFirstWord(phrase[0], Body(phrase[1..]), caption[0], Body(caption[1..]));
          assert phrase == [phrase[0]] + phrase[1..] && caption == [caption[0]] + caption[1..];
        } else if phrase <= caption {
          PrefixSplits(phrase, caption);
        }
      }
    }
  }

  lemma PrefixSplits(phrase: seq<string>, caption: seq<string>)
    requires phrase <= caption
    ensures Body(phrase) <= Body(caption)
  {
    assert caption == phrase + caption[|phrase|..];
    BodyConcat(phrase, caption[|phrase|..]);
  }

  /** A text that begins with a space and is found in " w" followed by the rest, but not at its start, is found
      in the rest, when w has no space. */
  lemma FoundInRest(part: string, w: string, rest: string, k: nat)
    requires Occurs(part, " " + w + rest, k) && k > 0 && part != "" && part[0] == ' '
    requires forall i | 0 <= i < |w| :: w[i] != ' '
    ensures k >= |w| + 1 && Occurs(part, rest, k - |w| - 1)
  {
  }

  lemma FoundAtStart(p: string, l: string)
    requires Occurs(" " + p, " " + l, 0)
    ensures p <= l
  {
    var part, whole := " " + p, " " + l;
    assert whole[..|part|] == part;
    assert forall i | 0 <= i < |p| :: p[i] == part[i + 1] && l[i] == whole[i + 1];
  }

  /** A padded phrase found at k in a padded text is a run of its words. */
  lemma {:induction false} OccursIsRun(phrase: seq<string>, text: seq<string>, k: nat)
    requires Words(phrase) && Words(text) && phrase != [] && Occurs(" " + Body(phrase), " " + Body(text), k)
    ensures RunOf(phrase, text)
    decreases |text|
  {
    hide Occurs;
    if k == 0 {
      FoundAtStart(Body(phrase), Body(text));
      PrefixIsWordPrefix(phrase, text);
      assert RunAt(phrase, text, 0);
    } else {
      HasRoom(phrase, text, k);
      BodyFirst(text);
      NoSpaceInWord(text[0]);
      var rest := " " + Body(text[1..]);
      assert " " + Body(text) == " " + text[0] + rest;
      FoundInRest(" " + Body(phrase), text[0], rest, k);
      OccursIsRun(phrase, text[1..], k - |text[0]| - 1);
      var i: nat :| RunAt(phrase, text[1..], i);
      assert text[1..][i..i + |phrase|] == text[i + 1..i + 1 + |phrase|];
      assert RunAt(phrase, text, i + 1);
    }
  }

  lemma HasRoom(phrase: seq<string>, text: seq<string>, k: nat)
    requires phrase != [] && Occurs(" " + Body(phrase), " " + Body(text), k)
    ensures text != []
  {
  }

  lemma OccursAfter(x: string, p: string, y: string)
    requires x == "" || x[|x| - 1] == ' '
    ensures Occurs(" " + p, " " + x + p + y, |x|)
  {
  }

  lemma RunOccurs(phrase: seq<string>, text: seq<string>, i: nat)
    requires RunAt(phrase, text, i)
    ensures Contains(" " + Body(text), " " + Body(phrase))
  {
    hide Occurs, Body;
    var before, after := text[..i], text[i + |phrase|..];
    SplitRun(text, phrase, i);
    BodyConcat(before + phrase, after);
    BodyConcat(before, phrase);
    BodyEnds(before);
    OccursAfter(Body(before), Body(phrase), Body(after));
    PadAssociates(Body(before), Body(phrase), Body(after));
  }

  lemma SplitRun(text: seq<string>, phrase: seq<string>, i: nat)
    requires RunAt(phrase, text, i)
    ensures text == text[..i] + phrase + text[i + |phrase|..]
  {
  }

  lemma PadAssociates(x: string, p: string, y: string)
    ensures " " + (x + p + y) == " " + x + p + y
  {
  }

  lemma BodyEnds(ts: seq<string>)
    ensures Body(ts) == "" || Body(ts)[|Body(ts)| - 1] == ' '
  {
  }

  /** autoinstallLabelContainsCanonicalPhrase. */
  method LabelContainsCanonicalPhrase(caption: string, phrase: string) returns (found: bool)
    ensures found <==> phrase != "" && Tokens(caption) != []
                       && Contains(" " + Join(Tokens(caption)) + " ", " " + phrase + " ")
  {
    var canonical := CanonicalAppName(caption);
    TokensAreWords(caption);
    if phrase == "" || canonical == "" {
      return false;
    }
    var whole, part := " " + canonical + " ", " " + phrase + " ";
    found := false;
    var k := 0;
    while k + |part| <= |whole| && !found
      invariant 0 <= k && found ==> Contains(whole, part)
      invariant 0 <= k && !found ==> forall j: nat | j < k :: !Occurs(part, whole, j)
      invariant k >= 0
    {
      if whole[k..k + |part|] == part {
        assert Occurs(part, whole, k);
        found := true;
      }
      k := k + 1;
    }
  }

  /** For a non-empty canonical phrase the padded substring test accepts a label exactly when the phrase's words
      occur as consecutive words of the label. */
  lemma AcceptsExactlyRuns(caption: string, phrase: string)
    requires phrase != "" && phrase == Join(Tokens(phrase))
    ensures Tokens(caption) != [] && Contains(" " + Join(Tokens(caption)) + " ", " " + phrase + " ")
            <==> RunOf(Tokens(phrase), Tokens(caption))
  {
    var p, l := Tokens(phrase), Tokens(caption);
    TokensAreWords(phrase);
    TokensAreWords(caption);
    hide Tokens, Occurs, Body;
    BodyIsJoin(p);
    PaddedIs(phrase, p);
    if l != [] {
      BodyIsJoin(l);
      PaddedIs(Join(l), l);
      hide Join;
      var part, whole := " " + Body(p), " " + Body(l);
      if Contains(whole, part) {
        var k: nat :| Occurs(part, whole, k);
        OccursIsRun(p, l, k);
      }
      if RunOf(p, l) {
        var i: nat :| RunAt(p, l, i);
        RunOccurs(p, l, i);
      }
    }
  }

  lemma PaddedIs(s: string, ts: seq<string>)
    requires s + " " == Body(ts)
    ensures " " + s + " " == " " + Body(ts)
  {
  }

  // ---------------------------------------------------------------- confirming a free install

  ghost predicate Accepts(caption: string, phrase: string) {
    phrase != "" && Tokens(caption) != [] && Contains(" " + Join(Tokens(caption)) + " ", " " + phrase + " ")
  }

  /** One of the signs that mark a price. */
  predicate CurrencySign(c: char) {
    c == '$' || c == '\U{A3}' || c == '\U{A5}' || c == '\U{20A9}' || c == '\U{20AC}' || c == '\U{20B9}'
  }

  predicate Blank(c: char) {
    c == ' ' || c == '\t' || c == '\n' || c == '\r'
  }

  function Trimmed(s: string): string {
    if s != "" && Blank(s[0]) then Trimmed(s[1..])
    else if s != "" && Blank(s[|s| - 1]) then Trimmed(s[..|s| - 1])
    else s
  }

  predicate InstallTitle(button: string) {
    Lower(Trimmed(button)) == "install" || Lower(Trimmed(button)) == "installieren"
  }

  const HEADING := "app store"

  /** autoinstallCanConfirmFreeInstallForNames: a free app, a fresh observation, the store's heading and one of the
      app's names as words of some label, no currency sign in any label, and an install button. */
  method CanConfirmFreeInstallForNames(appNames: seq<string>, captions: seq<string>, buttons: seq<string>,
                                       free: bool, ageSeconds: int) returns (ok: bool)
    ensures ok <==>
      && appNames != [] && free && 0 <= ageSeconds <= 120
      && (exists i :: 0 <= i < |captions| && Accepts(captions[i], HEADING))
      && (exists i, n :: 0 <= i < |captions| && 0 <= n < |appNames| && Tokens(appNames[n]) != []
                         && RunOf(Tokens(appNames[n]), Tokens(captions[i])))
      && (forall i | 0 <= i < |captions| :: forall c | c in captions[i] :: !CurrencySign(c))
      && (exists i :: 0 <= i < |buttons| && InstallTitle(buttons[i]))
  {
    hide Tokens, Contains, RunOf, Join, Lower, Trimmed;
    if appNames == [] || !free || ageSeconds < 0 || ageSeconds > 120 { return false; }
    var headingFound, nameFound := false, false;
    for i := 0 to |captions|
      invariant headingFound <==> exists k :: 0 <= k < i && Accepts(captions[k], HEADING)
      invariant nameFound <==> exists k, n :: 0 <= k < i && 0 <= n < |appNames| && Tokens(appNames[n]) != []
                                              && RunOf(Tokens(appNames[n]), Tokens(captions[k]))
      invariant forall k | 0 <= k < i :: forall c | c in captions[k] :: !CurrencySign(c)
    {
      var heading := LabelContainsCanonicalPhrase(captions[i], HEADING);
      headingFound := headingFound || heading;
      var named := SomeNameIn(appNames, captions[i]);
      nameFound := nameFound || named;
      if exists c | c in captions[i] :: CurrencySign(c) { return false; }
    }
    var buttonFound := false;
    for i := 0 to |buttons|
      invariant buttonFound <==> exists k :: 0 <= k < i && InstallTitle(buttons[k])
    {
      buttonFound := buttonFound || InstallTitle(buttons[i]);
    }
    ok := headingFound && nameFound && buttonFound;
  }

  method SomeNameIn(appNames: seq<string>, caption: string) returns (found: bool)
    ensures found <==> exists n :: 0 <= n < |appNames| && Tokens(appNames[n]) != [] && RunOf(Tokens(appNames[n]), Tokens(caption))
  {
    hide Tokens, Contains, RunOf;
    found := false;
    for n := 0 to |appNames|
      invariant found <==> exists m :: 0 <= m < n && Tokens(appNames[m]) != [] && RunOf(Tokens(appNames[m]), Tokens(caption))
    {
      var expected := CanonicalAppName(appNames[n]);
      var here := LabelContainsCanonicalPhrase(caption, expected);
      NameAccepted(caption, appNames[n]);
      found := found || here;
    }
  }

  /** A name's canonical form is accepted exactly when the name has words and they run in the label. */
  lemma NameAccepted(caption: string, name: string)
    ensures Accepts(caption, Join(Tokens(name))) <==> Tokens(name) != [] && RunOf(Tokens(name), Tokens(caption))
  {
    TokensAreWords(name);
    if Tokens(name) != [] {
      TokensOfJoin(Tokens(name));
      AcceptsExactlyRuns(caption, Join(Tokens(name)));
    }
  }
}
