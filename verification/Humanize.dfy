/** `humanize_name` of device/humanize.py: a regular expression with ordered alternatives and
    look-ahead cuts a name into tokens, which are then re-cased and joined. Letters are those of ASCII,
    as in the expression, digits those of Unicode. */
module Humanize {
  predicate Upper(c: char) { 'A' <= c <= 'Z' }

  predicate Lower(c: char) { 'a' <= c <= 'z' }

  /** The digits zero of the decimal digits of Unicode 15 beyond ASCII, ten in a row each. */
  const ZEROS: seq<int> := [
    0x660, 0x6F0, 0x7C0, 0x966, 0x9E6, 0xA66, 0xAE6, 0xB66, 0xBE6, 0xC66, 0xCE6,
    0xD66, 0xDE6, 0xE50, 0xED0, 0xF20, 0x1040, 0x1090, 0x17E0, 0x1810, 0x1946, 0x19D0,
    0x1A80, 0x1A90, 0x1B50, 0x1BB0, 0x1C40, 0x1C50, 0xA620, 0xA8D0, 0xA900, 0xA9D0, 0xA9F0,
    0xAA50, 0xABF0, 0xFF10, 0x104A0, 0x10D30, 0x11066, 0x110F0, 0x11136, 0x111D0, 0x112F0, 0x11450,
    0x114D0, 0x11650, 0x116C0, 0x11730, 0x118E0, 0x11950, 0x11C50, 0x11D50, 0x11DA0, 0x11F50, 0x16A60,
    0x16AC0, 0x16B50, 0x1D7CE, 0x1D7D8, 0x1D7E2, 0x1D7EC, 0x1D7F6, 0x1E140, 0x1E2F0, 0x1E4F0, 0x1E950,
    0x1FBF0]

  predicate FurtherDigit(n: int) { exists z :: z in ZEROS && z <= n < z + 10 }

  /** `\d` matches every decimal digit of Unicode. */
  predicate Digit(c: char) { '0' <= c <= '9' || (c > '~' && FurtherDigit(c as int)) }

  predicate Alnum(c: char) { Upper(c) || Lower(c) || Digit(c) }

  function ToLower(c: char): (r: char)
    ensures !Upper(r) && (Upper(c) ==> Lower(r)) && (!Upper(c) ==> r == c)
  {
    if Upper(c) then c + ' ' else c
  }

  function ToUpper(c: char): (r: char)
    ensures !Lower(r) && (Lower(c) ==> Upper(r)) && (!Lower(c) ==> r == c)
    ensures ToLower(r) == ToLower(c)
  {
    if Lower(c) then c - ' ' else c
  }

  function LowerAll(s: string): (r: string)
    ensures |r| == |s| && forall i | 0 <= i < |s| :: r[i] == ToLower(s[i])
  {
    seq(|s|, i requires 0 <= i < |s| => ToLower(s[i]))
  }

  // ---------------------------------------------------------------- the token grammar

  datatype CharClass = Uppers | Lowers | Digits {
    predicate Has(c: char) {
      match this
      case Uppers => Upper(c)
      case Lowers => Lower(c)
      case Digits => Digit(c)
    }
  }

  /** How many characters of the class stand from `i` on. */
  function RunLength(s: string, i: nat, cls: CharClass): (n: nat)
    ensures i <= |s| ==> i + n <= |s|
    ensures forall j | i <= j < i + n :: j < |s| && cls.Has(s[j])
    ensures i + n < |s| ==> !cls.Has(s[i + n])
    decreases |s| - i
  {
    if i < |s| && cls.Has(s[i]) then 1 + RunLength(s, i + 1, cls) else 0
  }

  datatype LookAhead = TitleNext | NoLowerNext {
    predicate Holds(s: string, j: nat) {
      match this
      case TitleNext => j + 1 < |s| && Upper(s[j]) && Lower(s[j + 1])
      case NoLowerNext => !(j < |s| && Lower(s[j]))
    }
  }

  /** A greedy run with a look-ahead gives back characters until the look-ahead holds; 0 is no match. */
  function GiveBack(s: string, i: nat, n: nat, look: LookAhead): (k: nat)
    ensures k <= n
    ensures k > 0 ==> look.Holds(s, i + k)
    ensures forall j | i + k < j <= i + n :: !look.Holds(s, j)
  {
    if n == 0 then 0
    else if look.Holds(s, i + n) then n
    else GiveBack(s, i, n - 1, look)
  }

  /** The length of the token at `i`: the first alternative that matches; 0 if none does. */
  function TokenLength(s: string, i: nat): nat {
    var capitals := RunLength(s, i, Uppers);
    var acronymBeforeWord := GiveBack(s, i, capitals, TitleNext);
    var acronym := GiveBack(s, i, capitals, NoLowerNext);
    if acronymBeforeWord > 0 then acronymBeforeWord
    else if acronym > 0 then acronym
    else if capitals > 0 then 1 + RunLength(s, i + 1, Lowers)
    else if RunLength(s, i, Lowers) > 0 then RunLength(s, i, Lowers)
    else RunLength(s, i, Digits)
  }

  lemma TokenFits(s: string, i: nat)
    requires i < |s|
    ensures i + TokenLength(s, i) <= |s|
    ensures forall j | i <= j < i + TokenLength(s, i) :: Alnum(s[j])
    ensures TokenLength(s, i) == 0 <==> !Alnum(s[i])
  {
  }

  type Token = w: string | w != "" witness "a"

  /** All tokens from `i` on, characters that start none being skipped. */
  function Tokens(s: string, i: nat): seq<Token>
    decreases |s| - i
  {
    if i >= |s| then []
    else
      TokenFits(s, i);
      var n := TokenLength(s, i);
      if n == 0 then Tokens(s, i + 1)
      else var token: Token := s[i..i + n]; [token] + Tokens(s, i + n)
  }

  // ---------------------------------------------------------------- re-casing

  predicate AllUpper(w: string) { forall i | 0 <= i < |w| :: Upper(w[i]) }

  predicate AllLower(w: string) { forall i | 0 <= i < |w| :: Lower(w[i]) }

  predicate AllDigits(w: string) { forall i | 0 <= i < |w| :: Digit(w[i]) }

  function Restyle(w: Token, first: bool): (r: Token)
    ensures |r| == |w|
  {
    if AllUpper(w) then w
    else if first then [ToUpper(w[0])] + LowerAll(w[1..])
    else LowerAll(w)
  }

  function RestyleAll(ws: seq<Token>, first: bool): (r: seq<Token>)
    ensures |r| == |ws|
  {
    if ws == [] then [] else [Restyle(ws[0], first)] + RestyleAll(ws[1..], false)
  }

  function Join(ws: seq<Token>): string {
    if ws == [] then ""
    else if |ws| == 1 then ws[0]
    else ws[0] + " " + Join(ws[1..])
  }

  function Name(s: string): string {
    var ws := Tokens(s, 0);
    if ws == [] then s else Join(RestyleAll(ws, true))
  }

  /** `humanize_name`. */
  method HumanizeName(s: string) returns (r: string)
    ensures r == Name(s)
  {
    if s == "" { return s; }
    var tokens := Tokens(s, 0);
    if tokens == [] { return s; }
    var out: seq<Token> := [];
    var i := 0;
    assert tokens[0..] == tokens;
    while i < |tokens|
      invariant 0 <= i <= |tokens|
      invariant out + RestyleAll(tokens[i..], i == 0) == RestyleAll(tokens, true)
    {
      var tok := tokens[i];
      assert tokens[i..][1..] == tokens[i + 1..];
      ghost var rest := RestyleAll(tokens[i + 1..], false);
      assert out + ([Restyle(tok, i == 0)] + rest) == out + [Restyle(tok, i == 0)] + rest;
      if AllUpper(tok) {
        out := out + [tok];
      } else if i == 0 {
        out := out + [[ToUpper(tok[0])] + LowerAll(tok[1..])];
      } else {
        out := out + [LowerAll(tok)];
      }
      i := i + 1;
    }
    assert out + [] == out;
    r := Join(out);
  }

  // ---------------------------------------------------------------- what comes out

  /** The token at a position: of several capitals all, but for the last one if a small letter follows
      it; a single capital with the small letters after it; small letters; or digits. */
  lemma TokenLengthIs(s: string, i: nat)
    requires i < |s|
    ensures var capitals, smalls := RunLength(s, i, Uppers), RunLength(s, i, Lowers);
            TokenLength(s, i)
              == if capitals == 0 then if smalls > 0 then smalls else RunLength(s, i, Digits)
                 else if i + capitals < |s| && Lower(s[i + capitals])
                 then if capitals > 1 then capitals - 1 else 1 + RunLength(s, i + 1, Lowers)
                 else capitals
  {
    var n := RunLength(s, i, Uppers);
    if n > 1 {
      assert forall j | i <= j < i + n :: Upper(s[j]);
      GivenBack(s, i, n);
    } else if n == 1 {
      assert Upper(s[i]);
    }
  }

  lemma GivenBack(s: string, i: nat, n: nat)
    requires n > 1 && i + n <= |s| && (forall j | i <= j < i + n :: Upper(s[j]))
    requires i + n < |s| ==> !Upper(s[i + n])
    ensures GiveBack(s, i, n, TitleNext) == if i + n < |s| && Lower(s[i + n]) then n - 1 else 0
    ensures GiveBack(s, i, n, NoLowerNext) == if i + n < |s| && Lower(s[i + n]) then n - 1 else n
  {
    NoTitleInside(s, i, n - 1, n);
    assert Upper(s[i + n - 1]);
  }

  lemma {:induction false} NoTitleInside(s: string, i: nat, k: nat, n: nat)
    requires k < n && i + n <= |s| && forall j | i <= j < i + n :: Upper(s[j])
    ensures k + 1 < n ==> GiveBack(s, i, k, TitleNext) == 0
    ensures i + n < |s| && Lower(s[i + n]) && k + 1 == n && k > 0 ==> GiveBack(s, i, k, TitleNext) == k
    ensures !(i + n < |s| && Lower(s[i + n])) ==> GiveBack(s, i, k, TitleNext) == 0
    decreases k
  {
    if k > 0 { NoTitleInside(s, i, k - 1, n); }
  }

  /** The two cases of a letter are 32 apart. */
  lemma CasesApart(c: char)
    ensures 'A' <= c <= 'Z' ==> ToLower(c) as int == c as int + 32 && ToUpper(c) == c
    ensures 'a' <= c <= 'z' ==> ToUpper(c) as int == c as int - 32 && ToLower(c) == c
    ensures !('A' <= c <= 'Z') && !('a' <= c <= 'z') ==> ToLower(c) == c == ToUpper(c)
  {
  }

  /** Every character of the result, word by word: an acronym keeps its capitals, otherwise the very
      first character is a capital and all others are small. */
  lemma {:induction false} RestyledAt(ws: seq<Token>, first: bool, k: nat, j: nat)
    requires k < |ws| && j < |ws[k]|
    ensures |RestyleAll(ws, first)[k]| == |ws[k]|
    ensures RestyleAll(ws, first)[k][j]
         == if forall i | 0 <= i < |ws[k]| :: 'A' <= ws[k][i] <= 'Z' then ws[k][j]
            else if first && k == 0 && j == 0 then ToUpper(ws[k][j])
            else ToLower(ws[k][j])
    decreases |ws|
  {
    hide ToUpper, ToLower;
    if k > 0 {
      RestyledAt(ws[1..], false, k - 1, j);
    } else {
      assert AllUpper(ws[0]) <==> forall i | 0 <= i < |ws[0]| :: 'A' <= ws[0][i] <= 'Z';
    }
  }

  // ---------------------------------------------------------------- idempotence

  /** One capital and small letters after it. */
  predicate Title(w: string) {
    |w| >= 2 && Upper(w[0]) && AllLower(w[1..])
  }

  predicate Word(w: Token) {
    AllUpper(w) || Title(w) || AllLower(w) || AllDigits(w)
  }

  /** A word that re-casing leaves alone. */
  predicate Settled(w: Token, first: bool) {
    Word(w) && if first then !Lower(w[0]) else !Title(w)
  }

  predicate AllSettled(ws: seq<Token>, first: bool) {
    ws == [] || (Settled(ws[0], first) && AllSettled(ws[1..], false))
  }

  /** Every token is a word. */
  lemma TokenIsWord(s: string, i: nat)
    requires i < |s| && Alnum(s[i])
    ensures i + TokenLength(s, i) <= |s| && Word(s[i..i + TokenLength(s, i)])
  {
  }

  lemma RestyleSettles(w: Token, first: bool)
    requires Word(w)
    ensures Settled(Restyle(w, first), first)
    ensures Settled(w, first) ==> Restyle(w, first) == w
  {
    hide FurtherDigit, ToUpper, ToLower;
    var r := Restyle(w, first);
    assert w[1..] == if |w| > 1 then [w[1]] + w[2..] else "";
    if AllUpper(w) {
      assert r == w && Upper(w[0]) && (|w| > 1 ==> Upper(w[1]) && w[1..][0] == w[1]);
    } else if AllDigits(w) {
      assert Digit(w[0]);
      assert r == w;
    } else if first {
      assert r[1..] == LowerAll(w[1..]);
      assert forall i | 0 <= i < |w[1..]| :: w[1..][i] == w[i + 1];
      assert AllLower(r[1..]) && Upper(r[0]);
      assert w[1..] == r[1..];
    } else {
      assert AllLower(r);
    }
  }

  lemma {:induction false} RestyleAllSettles(ws: seq<Token>, first: bool)
    requires forall w | w in ws :: Word(w)
    ensures AllSettled(RestyleAll(ws, first), first)
    decreases |ws|
  {
    if ws != [] {
      RestyleSettles(ws[0], first);
      RestyleAllSettles(ws[1..], false);
    }
  }

  lemma {:induction false} SettledStays(ws: seq<Token>, first: bool)
    requires AllSettled(ws, first)
    ensures RestyleAll(ws, first) == ws
    decreases |ws|
  {
    hide Settled, Restyle;
    if ws != [] {
      assert Settled(ws[0], first);
      WordOfSettled(ws[0], first);
      RestyleSettles(ws[0], first);
      SettledStays(ws[1..], false);
    }
  }

  lemma WordOfSettled(w: Token, first: bool)
    requires Settled(w, first)
    ensures Word(w)
  {
  }

  lemma {:induction false} TokensAreWords(s: string, i: nat)
    ensures forall w | w in Tokens(s, i) :: Word(w)
    decreases |s| - i
  {
    hide TokenLength, Word;
    if i < |s| {
      TokenFits(s, i);
      var n := TokenLength(s, i);
      TokensAreWords(s, i + if n == 0 then 1 else n);
      if n > 0 {
        TokenIsWord(s, i);
      }
    }
  }

  /** A word that ends the text or has a space after it is read back as one token. */
  lemma WordIsToken(s: string, i: nat, w: Token)
    requires Word(w) && i + |w| <= |s| && s[i..i + |w|] == w
    requires i + |w| == |s| || s[i + |w|] == ' '
    ensures TokenLength(s, i) == |w|
  {
    var n := |w|;
    assert forall j | i <= j < i + n :: s[j] == w[j - i];
    if AllUpper(w) {
      assert s[i] == w[0];
      assert forall j | i <= j < i + n :: Uppers.Has(s[j]);
      assert RunLength(s, i, Uppers) == n;
      assert LookAhead.NoLowerNext.Holds(s, i + n);
      forall j | i < j <= i + n ensures !LookAhead.TitleNext.Holds(s, j) {
        assert j + 1 < i + n ==> Upper(s[j + 1]);
      }
    } else if Title(w) {
      assert s[i + 1] == w[1..][0];
      assert RunLength(s, i, Uppers) == 1;
      assert !LookAhead.TitleNext.Holds(s, i + 1) && !LookAhead.NoLowerNext.Holds(s, i + 1);
      forall j | i + 1 <= j < i + n ensures Lowers.Has(s[j]) {
        assert s[j] == w[1..][j - i - 1];
      }
      assert RunLength(s, i + 1, Lowers) == n - 1;
    } else if AllLower(w) {
      assert RunLength(s, i, Uppers) == 0;
      assert forall j | i <= j < i + n :: Lowers.Has(s[j]);
      assert RunLength(s, i, Lowers) == n;
    } else {
      assert Digit(w[0]);
      assert RunLength(s, i, Uppers) == 0 && RunLength(s, i, Lowers) == 0;
      assert forall j | i <= j < i + n :: Digits.Has(s[j]);
      assert RunLength(s, i, Digits) == n;
    }
  }

  /** Words joined by spaces are read back as those words. */
  lemma {:induction false} TokensOfJoin(before: string, ws: seq<Token>)
    requires forall w | w in ws :: Word(w)
    ensures Tokens(before + Join(ws), |before|) == ws
    decreases |ws|
  {
    hide Tokens, Word, Join;
    if ws == [] {
      JoinNone();
      NoneLeft(before);
      assert before + "" == before;
    } else if |ws| == 1 {
      JoinOne(ws);
      FirstToken(before, ws[0], "");
      NoneLeft(before + ws[0]);
      assert before + ws[0] + "" == before + ws[0];
    } else {
      var w, rest := ws[0], Join(ws[1..]);
      JoinMore(ws);
      FirstToken(before, w, " " + rest);
      SpaceSkipped(before + w + (" " + rest), |before + w|);
      TokensOfJoin(before + w + " ", ws[1..]);
      assert before + w + (" " + rest) == before + w + " " + rest == before + Join(ws);
    }
  }

  lemma JoinNone()
    ensures Join([]) == ""
  {
  }

  lemma JoinOne(ws: seq<Token>)
    requires |ws| == 1
    ensures Join(ws) == ws[0]
  {
  }

  lemma JoinMore(ws: seq<Token>)
    requires |ws| > 1
    ensures Join(ws) == ws[0] + " " + Join(ws[1..])
  {
  }

  lemma NoneLeft(s: string)
    ensures Tokens(s, |s|) == []
  {
  }

  lemma FirstToken(before: string, w: Token, after: string)
    requires Word(w) && (after == "" || after[0] == ' ')
    ensures Tokens(before + w + after, |before|) == [w] + Tokens(before + w + after, |before + w|)
  {
    hide TokenLength, Word;
    var s := before + w + after;
    assert s[|before|..|before| + |w|] == w;
    WordIsToken(s, |before|, w);
  }

  lemma SpaceSkipped(s: string, i: nat)
    requires i < |s| && s[i] == ' '
    ensures Tokens(s, i) == Tokens(s, i + 1)
  {
  }

  lemma {:induction false} SettledAreWords(ws: seq<Token>, first: bool)
    requires AllSettled(ws, first)
    ensures forall w | w in ws :: Word(w)
    decreases |ws|
  {
    hide Word;
    if ws != [] {
      assert ws == [ws[0]] + ws[1..];
      SettledAreWords(ws[1..], false);
    }
  }

  /** Text in display form, that is a list of settled words with one space between them, is what
      `humanize_name` leaves alone, besides text without any letter or digit. */
  lemma DisplayFormStays(ws: seq<Token>)
    requires ws != [] && AllSettled(ws, true)
    ensures Name(Join(ws)) == Join(ws)
  {
    hide Restyle, Settled, TokenLength;
    SettledAreWords(ws, true);
    TokensOfJoin("", ws);
    assert "" + Join(ws) == Join(ws);
    SettledStays(ws, true);
  }

  /** The promise of the documentation: applying the transform again changes nothing. */
  lemma Idempotent(s: string)
    ensures Name(Name(s)) == Name(s)
  {
    hide Restyle, Settled, TokenLength, Word;
    var ws := Tokens(s, 0);
    if ws != [] {
      TokensAreWords(s, 0);
      RestyleAllSettles(ws, true);
      DisplayFormStays(RestyleAll(ws, true));
    }
  }

  // ---------------------------------------------------------------- nothing is lost

  /** The letters and digits of a text, in order and without their case. */
  function Letters(s: string): string {
    if s == "" then ""
    else (if Alnum(s[0]) then [ToLower(s[0])] else "") + Letters(s[1..])
  }

  function LettersOf(ws: seq<Token>): string {
    if ws == [] then "" else Letters(ws[0]) + LettersOf(ws[1..])
  }

  lemma {:induction false} LettersConcat(a: string, b: string)
    ensures Letters(a + b) == Letters(a) + Letters(b)
    decreases |a|
  {
    if a == "" {
      assert a + b == b;
    } else {
      hide Alnum, ToLower;
      LettersConcat(a[1..], b);
      assert (a + b)[0] == a[0] && (a + b)[1..] == a[1..] + b;
      var head := if Alnum(a[0]) then [ToLower(a[0])] else "";
      assert head + (Letters(a[1..]) + Letters(b)) == (head + Letters(a[1..])) + Letters(b);
    }
  }

  lemma {:induction false} SameLetters(a: string, b: string)
    requires |a| == |b| && forall i | 0 <= i < |a| :: ToLower(a[i]) == ToLower(b[i])
    ensures Letters(a) == Letters(b)
    decreases |a|
  {
    if a != "" {
      SameLetters(a[1..], b[1..]);
    }
  }

  lemma {:induction false} RestyleKeepsLetters(ws: seq<Token>, first: bool)
    ensures LettersOf(RestyleAll(ws, first)) == LettersOf(ws)
    decreases |ws|
  {
    hide Letters;
    if ws != [] {
      SameLetters(Restyle(ws[0], first), ws[0]);
      RestyleKeepsLetters(ws[1..], false);
    }
  }

  lemma {:induction false} LettersOfJoin(ws: seq<Token>)
    ensures Letters(Join(ws)) == LettersOf(ws)
    decreases |ws|
  {
    if |ws| == 1 {
      assert LettersOf(ws[1..]) == "";
    } else if |ws| > 1 {
      LettersConcat(ws[0] + " ", Join(ws[1..]));
      LettersConcat(ws[0], " ");
      assert Letters(" ") == "" + Letters("");
      LettersOfJoin(ws[1..]);
    }
  }

  lemma {:induction false} LettersOfTokens(s: string, i: nat)
    requires i <= |s|
    ensures Letters(s[i..]) == LettersOf(Tokens(s, i))
    decreases |s| - i
  {
    hide TokenLength;
    if i < |s| {
      TokenFits(s, i);
      var n := TokenLength(s, i);
      if n == 0 {
        LettersOfTokens(s, i + 1);
        assert s[i..][1..] == s[i + 1..];
      } else {
        LettersOfTokens(s, i + n);
        assert s[i..] == s[i..i + n] + s[i + n..];
        LettersConcat(s[i..i + n], s[i + n..]);
      }
    }
  }

  /** The letters and digits of the result, ignoring case, are those of the name, in order. */
  lemma LettersKept(s: string)
    ensures Letters(Name(s)) == Letters(s)
  {
    hide TokenLength, Letters, Restyle;
    var ws := Tokens(s, 0);
    LettersOfTokens(s, 0);
    assert s[0..] == s;
    RestyleKeepsLetters(ws, true);
    LettersOfJoin(RestyleAll(ws, true));
  }

  /** Text is left as it is for want of tokens exactly when it has no letter or digit. */
  lemma {:induction false} NoTokens(s: string, i: nat)
    requires i <= |s|
    ensures Tokens(s, i) == [] <==> forall j | i <= j < |s| :: !Alnum(s[j])
    decreases |s| - i
  {
    hide TokenLength;
    if i < |s| {
      TokenFits(s, i);
      if TokenLength(s, i) == 0 {
        NoTokens(s, i + 1);
      }
    }
  }
}
