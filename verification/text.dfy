/**
 Input normalisation of the REPL (cleanInput in cmd/main.go): the line is
 trimmed, lower-cased and split into whitespace-separated words.

 Whitespace is Go's unicode.IsSpace, written out code point by code point.
 Lower-casing covers the ASCII letters A-Z only.
 */
module Text {

  /** unicode.IsSpace: the Latin-1 spaces and the other White_Space code points. */
  predicate IsSpace(c: char) {
    || c == ' ' || c == '\t' || c == '\n' || c == '\U{0B}' || c == '\U{0C}' || c == '\r'
    || c == '\U{85}' || c == '\U{A0}' || c == '\U{1680}'
    || ('\U{2000}' <= c <= '\U{200A}')
    || c == '\U{2028}' || c == '\U{2029}' || c == '\U{202F}' || c == '\U{205F}' || c == '\U{3000}'
  }

  predicate IsUpper(c: char) {
    'A' <= c <= 'Z'
  }

  /** Among the ASCII characters the whitespace is exactly tab, newline, vertical tab, form feed, carriage return and space; no letter or digit is whitespace. */
  lemma SpaceChars(c: char)
    ensures c < '\U{80}' ==> (IsSpace(c) <==> c in " \t\n\U{0B}\U{0C}\r")
    ensures IsSpace(c) ==> !('A' <= c <= 'Z' || 'a' <= c <= 'z' || '0' <= c <= '9')
  {
  }

  /** Every character of s is whitespace (vacuously so for the empty string). */
  predicate AllSpace(s: string) {
    forall i :: 0 <= i < |s| ==> IsSpace(s[i])
  }

  /** No character of s is whitespace. */
  predicate NoSpace(s: string) {
    forall i :: 0 <= i < |s| ==> !IsSpace(s[i])
  }

  /** No character of s is an upper-case letter. */
  predicate NoUpper(s: string) {
    forall i :: 0 <= i < |s| ==> !IsUpper(s[i])
  }

  /** A word as cleanInput produces it: non-empty and free of whitespace. */
  predicate IsWord(w: string) {
    w != [] && NoSpace(w)
  }

  predicate AllWords(ws: seq<string>) {
    forall i :: 0 <= i < |ws| ==> IsWord(ws[i])
  }

  function LowerChar(c: char): (d: char)
    ensures !IsUpper(d)
    ensures IsUpper(c) ==> d as int == c as int + 32
    ensures !IsUpper(c) ==> d == c
    ensures IsSpace(d) <==> IsSpace(c)
  {
    if IsUpper(c) then (c as int + 32) as char else c
  }

  /** strings.ToLower restricted to ASCII letters. */
  function Lower(s: string): (r: string)
    ensures |r| == |s|
    ensures forall i :: 0 <= i < |s| ==> r[i] == LowerChar(s[i])
  {
    seq(|s|, i requires 0 <= i < |s| => LowerChar(s[i]))
  }

  /** s without its leading whitespace. */
  function DropSpace(s: string): (r: string)
    ensures |r| <= |s|
    decreases |s|
  {
    if s != [] && IsSpace(s[0]) then DropSpace(s[1..]) else s
  }

  /** s without its trailing whitespace. */
  function DropTrailingSpace(s: string): (r: string)
    ensures |r| <= |s|
    decreases |s|
  {
    if s != [] && IsSpace(s[|s| - 1]) then DropTrailingSpace(s[..|s| - 1]) else s
  }

  /** strings.TrimSpace */
  function Trim(s: string): string {
    DropTrailingSpace(DropSpace(s))
  }

  /** The word being built, as a list of zero or one finished words. */
  function Flush(word: string): seq<string> {
    if word == [] then [] else [word]
  }

  /**
   The scan behind strings.Fields: `word` holds the characters of the field
   read so far; whitespace ends it, the end of the input ends it too.
   */
  function Split(s: string, word: string): (r: seq<string>)
    requires NoSpace(word)
    ensures AllWords(r)
    decreases |s|
  {
    if s == [] then Flush(word)
    else if IsSpace(s[0]) then
      var rest := Split(s[1..], []);
      ConsWords(Flush(word), rest);
      Flush(word) + rest
    else
      Split(s[1..], word + [s[0]])
  }

  /** strings.Fields: the maximal runs of non-whitespace characters, in order. */
  function Fields(s: string): seq<string> {
    Split(s, [])
  }

  /** cleanInput: lower-case, trim, split on whitespace. */
  function CleanInput(text: string): (words: seq<string>)
    ensures AllWords(words)
    ensures forall i :: 0 <= i < |words| ==> NoUpper(words[i])
  {
    var lowered := Lower(Trim(text));
    SplitNoUpper(lowered, []);
    Fields(lowered)
  }

  /** strings.Join */
  function Join(words: seq<string>, sep: string): string
    decreases |words|
  {
    if |words| == 0 then []
    else if |words| == 1 then words[0]
    else words[0] + sep + Join(words[1..], sep)
  }

  /** The characters of s that are not whitespace, in order. */
  function NonSpace(s: string): string
    decreases |s|
  {
    if s == [] then []
    else if IsSpace(s[0]) then NonSpace(s[1..])
    else [s[0]] + NonSpace(s[1..])
  }

  function Concat(words: seq<string>): string
    decreases |words|
  {
    if words == [] then [] else words[0] + Concat(words[1..])
  }

  // ---------------------------------------------------------------------
  // Sequences of words

  lemma ConsWords(a: seq<string>, b: seq<string>)
    requires AllWords(a) && AllWords(b)
    ensures AllWords(a + b)
  {
    forall i | 0 <= i < |a + b| ensures IsWord((a + b)[i]) {
      if i >= |a| {
        assert (a + b)[i] == b[i - |a|];
      }
    }
  }

  lemma {:induction false} ConcatAppend(a: seq<string>, b: seq<string>)
    ensures Concat(a + b) == Concat(a) + Concat(b)
    decreases |a|
  {
    if a != [] {
      assert (a + b)[0] == a[0];
      assert (a + b)[1..] == a[1..] + b;
      ConcatAppend(a[1..], b);
    } else {
      assert a + b == b;
    }
  }

  // ---------------------------------------------------------------------
  // Lower-casing

  lemma LowerAppend(a: string, b: string)
    ensures Lower(a + b) == Lower(a) + Lower(b)
  {
  }

  /** Lower-casing changes nothing exactly when there is no upper-case letter. */
  lemma LowerFixes(s: string)
    ensures Lower(s) == s <==> NoUpper(s)
  {
    if Lower(s) == s {
      forall i | 0 <= i < |s| ensures !IsUpper(s[i]) {
        assert s[i] == Lower(s)[i];
      }
    }
  }

  lemma LowerIdempotent(s: string)
    ensures Lower(Lower(s)) == Lower(s)
  {
    LowerFixes(Lower(s));
  }

  lemma LowerKeepsSpace(s: string)
    ensures AllSpace(Lower(s)) <==> AllSpace(s)
  {
  }

  // ---------------------------------------------------------------------
  // Trimming

  lemma {:induction false} DropSpaceSplits(s: string)
    ensures var k := |s| - |DropSpace(s)|; s[k..] == DropSpace(s) && AllSpace(s[..k])
    decreases |s|
  {
    if s != [] && IsSpace(s[0]) {
      DropSpaceSplits(s[1..]);
      var k := |s| - |DropSpace(s)|;
      assert s[1..][k - 1..] == s[k..];
      assert forall i :: 1 <= i < k ==> s[..k][i] == s[1..][..k - 1][i - 1];
    }
  }

  lemma {:induction false} DropTrailingSpaceSplits(s: string)
    ensures var k := |DropTrailingSpace(s)|; s[..k] == DropTrailingSpace(s) && AllSpace(s[k..])
    decreases |s|
  {
    if s != [] && IsSpace(s[|s| - 1]) {
      var s' := s[..|s| - 1];
      DropTrailingSpaceSplits(s');
      var k := |DropTrailingSpace(s)|;
      assert s'[..k] == s[..k];
      assert s[k..] == s'[k..] + [s[|s| - 1]];
    }
  }

  /** Cutting a string at k and its suffix at j gives three pieces that make it up. */
  lemma ThreePieces(s: string, k: nat, j: nat)
    requires k <= |s| && j <= |s| - k
    ensures s == s[..k] + s[k..][..j] + s[k..][j..]
  {
    var d := s[k..];
    assert d == d[..j] + d[j..];
    assert s == s[..k] + d;
  }

  /** DropSpace stops at the first non-whitespace character. */
  lemma {:induction false} DropSpaceStops(s: string)
    ensures DropSpace(s) == [] || !IsSpace(DropSpace(s)[0])
    decreases |s|
  {
    if s != [] && IsSpace(s[0]) {
      DropSpaceStops(s[1..]);
    }
  }

  /** DropTrailingSpace stops at the last non-whitespace character and keeps the first one. */
  lemma {:induction false} DropTrailingSpaceStops(s: string)
    ensures DropTrailingSpace(s) == [] || !IsSpace(DropTrailingSpace(s)[|DropTrailingSpace(s)| - 1])
    ensures DropTrailingSpace(s) != [] ==> DropTrailingSpace(s)[0] == s[0]
    decreases |s|
  {
    if s != [] && IsSpace(s[|s| - 1]) {
      DropTrailingSpaceStops(s[..|s| - 1]);
    }
  }

  /** A string is its leading whitespace, its trimmed text and its trailing whitespace. */
  lemma {:induction false} TrimSplits(s: string) returns (a: string, b: string)
    ensures s == a + Trim(s) + b && AllSpace(a) && AllSpace(b)
    ensures Trim(s) == [] || (!IsSpace(Trim(s)[0]) && !IsSpace(Trim(s)[|Trim(s)| - 1]))
  {
    var d := DropSpace(s);
    var t := DropTrailingSpace(d);
    DropSpaceSplits(s);
    DropTrailingSpaceSplits(d);
    var k := |s| - |d|;
    ThreePieces(s, k, |t|);
    a := s[..k];
    b := d[|t|..];
    DropSpaceStops(s);
    DropTrailingSpaceStops(d);
  }

  // ---------------------------------------------------------------------
  // Splitting

  /** Whitespace only ever yields no words. */
  lemma {:induction false} SplitSpace(a: string)
    requires AllSpace(a)
    ensures Split(a, []) == []
    decreases |a|
  {
    if a != [] {
      SplitSpace(a[1..]);
    }
  }

  /** Leading whitespace is invisible to the scan. */
  lemma {:induction false} SplitSpacePrefix(a: string, t: string)
    requires AllSpace(a)
    ensures Split(a + t, []) == Split(t, [])
    decreases |a|
  {
    if a != [] {
      assert (a + t)[0] == a[0];
      assert (a + t)[1..] == a[1..] + t;
      SplitSpacePrefix(a[1..], t);
    } else {
      assert a + t == t;
    }
  }

  /** Trailing whitespace is invisible to the scan. */
  lemma {:induction false} SplitSpaceSuffix(t: string, b: string, word: string)
    requires AllSpace(b) && NoSpace(word)
    ensures Split(t + b, word) == Split(t, word)
    decreases |t|
  {
    if t == [] {
      assert t + b == b;
      if b != [] {
        SplitSpace(b[1..]);
      }
    } else {
      assert (t + b)[1..] == t[1..] + b;
      if IsSpace(t[0]) {
        SplitSpaceSuffix(t[1..], b, []);
      } else {
        SplitSpaceSuffix(t[1..], b, word + [t[0]]);
      }
    }
  }

  /** A whitespace-free run is appended to the word being built. */
  lemma {:induction false} SplitWord(w: string, rest: string, word: string)
    requires NoSpace(w) && NoSpace(word)
    ensures Split(w + rest, word) == Split(rest, word + w)
    decreases |w|
  {
    if w != [] {
      assert (w + rest)[0] == w[0];
      assert (w + rest)[1..] == w[1..] + rest;
      assert word + w == (word + [w[0]]) + w[1..];
      SplitWord(w[1..], rest, word + [w[0]]);
    } else {
      assert w + rest == rest && word + w == word;
    }
  }

  /** The scan yields nothing exactly when there is no pending word and no text. */
  lemma {:induction false} SplitEmpty(s: string, word: string)
    requires NoSpace(word)
    ensures Split(s, word) == [] <==> word == [] && AllSpace(s)
    decreases |s|
  {
    if s != [] {
      if IsSpace(s[0]) {
        SplitEmpty(s[1..], []);
      } else {
        SplitEmpty(s[1..], word + [s[0]]);
      }
    }
  }

  /** Words cut from text without upper-case letters have none either. */
  lemma {:induction false} SplitNoUpper(s: string, word: string)
    requires NoSpace(word) && NoUpper(word) && NoUpper(s)
    ensures forall i :: 0 <= i < |Split(s, word)| ==> NoUpper(Split(s, word)[i])
    decreases |s|
  {
    if s != [] {
      if IsSpace(s[0]) {
        SplitNoUpper(s[1..], []);
      } else {
        SplitNoUpper(s[1..], word + [s[0]]);
      }
    }
  }

  /** The scan keeps every non-whitespace character, in order, and adds none. */
  lemma {:induction false} SplitKeepsText(s: string, word: string)
    requires NoSpace(word)
    ensures Concat(Split(s, word)) == word + NonSpace(s)
    decreases |s|
  {
    if s == [] {
      assert Concat(Flush(word)) == word;
    } else if IsSpace(s[0]) {
      SplitKeepsText(s[1..], []);
      ConcatAppend(Flush(word), Split(s[1..], []));
      assert Concat(Flush(word)) == word;
    } else {
      SplitKeepsText(s[1..], word + [s[0]]);
    }
  }

  /** Fields keeps every non-whitespace character, in order, and adds none. */
  lemma FieldsKeepsText(s: string)
    ensures Concat(Fields(s)) == NonSpace(s)
  {
    SplitKeepsText(s, []);
  }

  /** Fields yields nothing exactly when the string is all whitespace. */
  lemma FieldsEmpty(s: string)
    ensures Fields(s) == [] <==> AllSpace(s)
  {
    SplitEmpty(s, []);
  }

  /** Splitting words joined by single spaces gives the words back. */
  lemma {:induction false} FieldsOfJoin(words: seq<string>)
    requires AllWords(words)
    ensures Fields(Join(words, " ")) == words
    decreases |words|
  {
    if words != [] {
      var w := words[0];
      assert IsWord(w);
      if |words| == 1 {
        SplitWord(w, [], []);
        assert w + [] == w;
        assert [] + w == w;
      } else {
        var rest := Join(words[1..], " ");
        assert Join(words, " ") == w + (" " + rest);
        SplitWord(w, " " + rest, []);
        assert [] + w == w;
        assert (" " + rest)[1..] == rest;
        FieldsOfJoin(words[1..]);
      }
    }
  }

  /** A single word is its own only field. */
  lemma FieldsOfWord(w: string)
    requires IsWord(w)
    ensures Fields(w) == [w]
  {
    SplitWord(w, [], []);
    assert w + [] == w;
    assert [] + w == w;
  }

  /**
   Any non-empty run of whitespace ends the word before it: the fields of
   `w + a + t` are `w` followed by the fields of `t`, however long `a` is.
   */
  lemma {:induction false} FieldsSplitsAtSpace(w: string, a: string, t: string)
    requires IsWord(w) && a != [] && AllSpace(a)
    ensures Fields(w + a + t) == [w] + Fields(t)
  {
    assert w + a + t == w + (a + t);
    SplitWord(w, a + t, []);
    assert [] + w == w;
    assert (a + t)[0] == a[0];
    assert (a + t)[1..] == a[1..] + t;
    SplitSpacePrefix(a[1..], t);
  }

  lemma {:induction false} JoinNoUpper(words: seq<string>)
    requires forall i :: 0 <= i < |words| ==> NoUpper(words[i])
    ensures NoUpper(Join(words, " "))
    decreases |words|
  {
    if |words| > 1 {
      JoinNoUpper(words[1..]);
    }
  }

  /** Trimming before splitting makes no difference. */
  lemma TrimIrrelevant(s: string)
    ensures Fields(Lower(Trim(s))) == Fields(Lower(s))
  {
    var a, b := TrimSplits(s);
    var t := Trim(s);
    LowerAppend(a + t, b);
    LowerAppend(a, t);
    LowerKeepsSpace(a);
    LowerKeepsSpace(b);
    assert Lower(s) == Lower(a) + (Lower(t) + Lower(b));
    SplitSpacePrefix(Lower(a), Lower(t) + Lower(b));
    SplitSpaceSuffix(Lower(t), Lower(b), []);
  }

  // ---------------------------------------------------------------------
  // Properties of cleanInput

  /** cleanInput is Fields after Lower; the trim adds nothing. */
  lemma CleanInputIsFieldsOfLower(s: string)
    ensures CleanInput(s) == Fields(Lower(s))
  {
    TrimIrrelevant(s);
  }

  /** No words exactly for the empty or all-whitespace line. */
  lemma CleanInputBlank(s: string)
    ensures CleanInput(s) == [] <==> AllSpace(s)
  {
    CleanInputIsFieldsOfLower(s);
    FieldsEmpty(Lower(s));
    LowerKeepsSpace(s);
  }

  /** The words are the line's non-whitespace characters, lower-cased, in order. */
  lemma CleanInputKeepsText(s: string)
    ensures Concat(CleanInput(s)) == NonSpace(Lower(s))
  {
    CleanInputIsFieldsOfLower(s);
    FieldsKeepsText(Lower(s));
  }

  /** Letter case does not matter. */
  lemma CleanInputIgnoresCase(s: string, s': string)
    requires Lower(s) == Lower(s')
    ensures CleanInput(s) == CleanInput(s')
  {
    CleanInputIsFieldsOfLower(s);
    CleanInputIsFieldsOfLower(s');
  }

  /** Surrounding whitespace does not matter. */
  lemma CleanInputIgnoresPadding(a: string, s: string, b: string)
    requires AllSpace(a) && AllSpace(b)
    ensures CleanInput(a + s + b) == CleanInput(s)
  {
    CleanInputIsFieldsOfLower(a + s + b);
    CleanInputIsFieldsOfLower(s);
    LowerAppend(a + s, b);
    LowerAppend(a, s);
    LowerKeepsSpace(a);
    LowerKeepsSpace(b);
    assert Lower(a + s + b) == Lower(a) + (Lower(s) + Lower(b));
    SplitSpacePrefix(Lower(a), Lower(s) + Lower(b));
    SplitSpaceSuffix(Lower(s), Lower(b), []);
  }

  /** Cleaning lower-case words joined by single spaces gives the words back. */
  lemma CleanInputOfJoin(words: seq<string>)
    requires AllWords(words)
    requires forall i :: 0 <= i < |words| ==> NoUpper(words[i])
    ensures CleanInput(Join(words, " ")) == words
  {
    var line := Join(words, " ");
    JoinNoUpper(words);
    LowerFixes(line);
    CleanInputIsFieldsOfLower(line);
    FieldsOfJoin(words);
  }

  /** Cleaning the re-joined words of a cleaned line gives the same words. */
  lemma CleanInputIdempotent(s: string)
    ensures CleanInput(Join(CleanInput(s), " ")) == CleanInput(s)
  {
    CleanInputOfJoin(CleanInput(s));
  }

  /** A non-empty run of the letters a to z is a word without upper case. */
  lemma LetterWord(w: string)
    requires w != [] && forall i :: 0 <= i < |w| ==> 'a' <= w[i] <= 'z'
    ensures IsWord(w) && NoUpper(w)
  {
  }

  /** Lower-case letter words joined by single spaces clean back to themselves. */
  lemma CleanLetterWords(words: seq<string>)
    requires forall i :: 0 <= i < |words| ==> words[i] != [] && forall j :: 0 <= j < |words[i]| ==> 'a' <= words[i][j] <= 'z'
    ensures CleanInput(Join(words, " ")) == words
  {
    forall i | 0 <= i < |words| ensures IsWord(words[i]) && NoUpper(words[i]) {
      LetterWord(words[i]);
    }
    CleanInputOfJoin(words);
  }

  /**
   The concrete cases of the repository's cleanInput test. Where a case's
   line is long, the line is a parameter fixed by the precondition and the
   lower-casing is shown piece by piece: stated on the literal itself, the
   functions would be unfolded over every character at once.
   */
  lemma CleanInputTwoWords()
    ensures CleanInput("hello world") == ["hello", "world"]
  {
    var words: seq<string> := ["hello", "world"];
    assert Join(words, " ") == "hello world";
    CleanLetterWords(words);
  }

  lemma CleanInputThreeWords()
    ensures CleanInput("leading and trailing") == ["leading", "and", "trailing"]
  {
    var words: seq<string> := ["leading", "and", "trailing"];
    assert Join(words, " ") == "leading and trailing";
    CleanLetterWords(words);
  }

  lemma CleanInputPadded(line: string)
    requires line == "   leading and trailing   "
    ensures CleanInput(line) == ["leading", "and", "trailing"]
  {
    var pad := "   ";
    assert AllSpace(pad);
    assert line == pad + "leading and trailing" + pad;
    CleanInputThreeWords();
    CleanInputIgnoresPadding(pad, "leading and trailing", pad);
  }

  lemma LowerOfCharmander()
    ensures Lower("Charmander ") == "charmander "
  {
  }

  lemma LowerOfBulbasaur()
    ensures Lower("Bulbasaur ") == "bulbasaur "
  {
  }

  lemma LowerOfPikachu()
    ensures Lower("PIKACHU") == "pikachu"
  {
  }

  lemma LowerMixedCase(line: string)
    requires line == "Charmander Bulbasaur PIKACHU"
    ensures Lower(line) == "charmander bulbasaur pikachu"
  {
    var a, b, c := "Charmander ", "Bulbasaur ", "PIKACHU";
    assert line == (a + b) + c;
    LowerAppend(a + b, c);
    LowerAppend(a, b);
    LowerOfCharmander();
    LowerOfBulbasaur();
    LowerOfPikachu();
    assert Lower(a + b) == "charmander bulbasaur ";
  }

  lemma CleanInputMixedCase(line: string)
    requires line == "Charmander Bulbasaur PIKACHU"
    ensures CleanInput(line) == ["charmander", "bulbasaur", "pikachu"]
  {
    var lower := "charmander bulbasaur pikachu";
    var words: seq<string> := ["charmander", "bulbasaur", "pikachu"];
    assert Join(words, " ") == lower;
    CleanLetterWords(words);
    LowerMixedCase(line);
    LowerIdempotent(lower);
    CleanInputIgnoresCase(line, lower);
  }

  lemma CleanInputEmptyLines()
    ensures CleanInput("") == []
    ensures CleanInput("   ") == []
  {
    CleanInputBlank("");
    CleanInputBlank("   ");
  }
}
