/** Turning a raw IMDB review into the fixed-length word list the model reads:
    cleaning (drop `<br`, keep words made of letters, digits and inner
    apostrophes, lower-case them, keep only words that have an embedding),
    padding to a fixed number of entries, and the sentiment label. */
module Dataset {

  /** `char::is_alphanumeric`, on ASCII. */
  predicate IsAlphanumeric(c: char)
  {
    'a' <= c <= 'z' || 'A' <= c <= 'Z' || '0' <= c <= '9'
  }

  /** A character that may continue a word once it has started. */
  predicate IsWordChar(c: char)
  {
    IsAlphanumeric(c) || c == '\''
  }

  /** `char::is_whitespace`, on ASCII: space, tab, line feed, vertical tab, form feed, carriage return. */
  predicate IsWhitespace(c: char)
  {
    c == ' ' || 9 <= c as int <= 13
  }

  /** `char::to_lowercase`, on ASCII. */
  function ToLower(c: char): (l: char)
    ensures !('A' <= l <= 'Z')
    ensures IsAlphanumeric(c) <==> IsAlphanumeric(l)
    ensures l == '\'' <==> c == '\''
  {
    if 'A' <= c <= 'Z' then (c as int + 32) as char else c
  }

  /** `str::to_lowercase`, character by character. */
  function Lower(w: string): (l: string)
    ensures |l| == |w|
    ensures forall i :: 0 <= i < |l| ==> l[i] == ToLower(w[i])
  {
    seq(|w|, i requires 0 <= i < |w| => ToLower(w[i]))
  }

  /** `s.replace("<br", "")`: occurrences found from left to right, without
      overlap, are removed in a single pass. */
  function RemoveBr(s: string): (r: string)
    ensures |r| <= |s|
  {
    if |s| >= 3 && s[..3] == "<br" then RemoveBr(s[3..])
    else if s == [] then []
    else [s[0]] + RemoveBr(s[1..])
  }

  /** A string with no `<` has nothing to remove. */
  lemma {:induction false} RemoveBrNoTag(s: string)
    requires forall i :: 0 <= i < |s| ==> s[i] != '<'
    ensures RemoveBr(s) == s
  {
    if s != [] {
      assert |s| >= 3 ==> s[..3][0] == s[0];
      RemoveBrNoTag(s[1..]);
    }
  }

  /** One pass only: a `<br` that the removal itself brings together stays. */
  lemma RemoveBrSinglePass()
    ensures RemoveBr("<<brbr") == "<br"
  {
    assert "<<brbr"[..3] == "<<b";
    assert "<<brbr"[1..][..3] == "<br";
    assert "<<brbr"[1..][3..] == "br";
    assert "br"[1..] == "r";
  }

  /** A word as the cleaner reads it: an alphanumeric character followed by
      alphanumeric characters and apostrophes. */
  predicate IsWord(w: string)
  {
    |w| > 0 && IsAlphanumeric(w[0]) && forall i :: 0 <= i < |w| ==> IsWordChar(w[i])
  }

  /** Length of the longest prefix of `s` made of word characters. */
  function WordRun(s: string): (n: nat)
    ensures n <= |s|
    ensures forall i :: 0 <= i < n ==> IsWordChar(s[i])
    ensures n < |s| ==> !IsWordChar(s[n])
  {
    if s != [] && IsWordChar(s[0]) then 1 + WordRun(s[1..]) else 0
  }

  /** The words of `s`, left to right: each starts at an alphanumeric character
      that does not continue a word, and runs as far as word characters go. */
  function Tokens(s: string): seq<string>
    decreases |s|
  {
    if s == [] then []
    else if IsAlphanumeric(s[0]) then
      var n := 1 + WordRun(s[1..]);
      [s[..n]] + Tokens(s[n..])
    else Tokens(s[1..])
  }

  /** Every token is a word. */
  lemma {:induction false} TokensAreWords(s: string)
    ensures forall i :: 0 <= i < |Tokens(s)| ==> IsWord(Tokens(s)[i])
    decreases |s|
  {
    if s != [] {
      if IsAlphanumeric(s[0]) {
        var n := 1 + WordRun(s[1..]);
        TokensAreWords(s[n..]);
        assert forall i :: 1 <= i < n ==> s[..n][i] == s[1..][i - 1];
      } else {
        TokensAreWords(s[1..]);
      }
    }
  }

  /** A word followed by one more word character is still a word. */
  lemma ExtendWord(cur: string, c: char)
    requires (cur == "" && IsAlphanumeric(c)) || (IsWord(cur) && IsWordChar(c))
    ensures IsWord(cur + [c])
  {
  }

  lemma {:induction false} WordRunAppend(w: string, s: string)
    requires forall i :: 0 <= i < |w| ==> IsWordChar(w[i])
    ensures WordRun(w + s) == |w| + WordRun(s)
  {
    if w != [] {
      assert (w + s)[0] == w[0];
      assert (w + s)[1..] == w[1..] + s;
      WordRunAppend(w[1..], s);
    } else {
      assert w + s == s;
    }
  }

  /** A whole word followed by something that cannot continue it is a token of its own. */
  lemma WordThenBreak(w: string, s: string)
    requires IsWord(w) && (s == [] || !IsWordChar(s[0]))
    ensures Tokens(w + s) == [w] + Tokens(s)
  {
    assert (w + s)[1..] == w[1..] + s;
    WordRunAppend(w[1..], s);
    assert (w + s)[..|w|] == w && (w + s)[|w|..] == s;
  }

  /** The words kept by the cleaner: each token lower-cased, in order, when the
      lower-cased word has an embedding. */
  function Kept(ws: seq<string>, embeddings: set<string>): (ks: seq<string>)
    ensures |ks| <= |ws|
    ensures forall i :: 0 <= i < |ks| ==> ks[i] in embeddings
  {
    if ws == [] then []
    else (if Lower(ws[0]) in embeddings then [Lower(ws[0])] else []) + Kept(ws[1..], embeddings)
  }

  /** A word is kept exactly when it is the lower-case form of some token and has an embedding. */
  lemma {:induction false} KeptExactly(ws: seq<string>, embeddings: set<string>, x: string)
    ensures x in Kept(ws, embeddings) <==> x in embeddings && exists j :: 0 <= j < |ws| && Lower(ws[j]) == x
  {
    if ws != [] {
      KeptExactly(ws[1..], embeddings, x);
      if exists j :: 0 <= j < |ws| - 1 && Lower(ws[1..][j]) == x {
        var j :| 0 <= j < |ws| - 1 && Lower(ws[1..][j]) == x;
        assert Lower(ws[j + 1]) == x;
      }
      if exists j :: 0 <= j < |ws| && Lower(ws[j]) == x {
        var j :| 0 <= j < |ws| && Lower(ws[j]) == x;
        if j > 0 {
          assert Lower(ws[1..][j - 1]) == x;
        }
      }
    }
  }

  /** Every word lower-cased. */
  function LowerAll(ws: seq<string>): (ls: seq<string>)
    ensures |ls| == |ws| && forall i :: 0 <= i < |ws| ==> ls[i] == Lower(ws[i])
  {
    seq(|ws|, i requires 0 <= i < |ws| => Lower(ws[i]))
  }

  /** When every word has an embedding, nothing is dropped: the kept words are
      all the words, lower-cased, in their order. */
  lemma {:induction false} KeptAllEmbedded(ws: seq<string>, embeddings: set<string>)
    requires forall i :: 0 <= i < |ws| ==> Lower(ws[i]) in embeddings
    ensures Kept(ws, embeddings) == LowerAll(ws)
  {
    if ws != [] {
      KeptAllEmbedded(ws[1..], embeddings);
      assert LowerAll(ws) == [Lower(ws[0])] + LowerAll(ws[1..]);
    }
  }

  /** Every kept word is non-empty, starts with a letter or digit, holds only
      letters, digits and apostrophes, and has no upper-case letter. */
  lemma {:induction false} KeptAreCleanWords(ws: seq<string>, embeddings: set<string>)
    requires forall i :: 0 <= i < |ws| ==> IsWord(ws[i])
    ensures forall i :: 0 <= i < |Kept(ws, embeddings)| ==> IsCleanWord(Kept(ws, embeddings)[i])
  {
    if ws != [] {
      KeptAreCleanWords(ws[1..], embeddings);
    }
  }

  predicate IsCleanWord(w: string)
  {
    IsWord(w) && forall i :: 0 <= i < |w| ==> !('A' <= w[i] <= 'Z')
  }

  /** Each word followed by one space. */
  function Render(ws: seq<string>): string
  {
    if ws == [] then "" else ws[0] + " " + Render(ws[1..])
  }

  /** Rendering the kept words of `[w] + rest`: `w` lower-cased with its space
      when it has an embedding, then the rest. */
  lemma KeptRenderCons(w: string, rest: seq<string>, embeddings: set<string>)
    ensures Render(Kept([w] + rest, embeddings))
         == (if Lower(w) in embeddings then Lower(w) + " " else "") + Render(Kept(rest, embeddings))
  {
    assert ([w] + rest)[0] == w && ([w] + rest)[1..] == rest;
    var k := Kept(rest, embeddings);
    if Lower(w) in embeddings {
      assert ([Lower(w)] + k)[0] == Lower(w) && ([Lower(w)] + k)[1..] == k;
    } else {
      assert [] + k == k;
    }
  }

  /** The cleaned review: the kept words, each followed by one space. */
  function Cleaned(review: string, embeddings: set<string>): string
  {
    Render(Kept(Tokens(RemoveBr(review)), embeddings))
  }

  /** A rendering is empty or ends in a space, never starts with a space and
      never holds two spaces in a row. */
  lemma {:induction false} RenderFormat(ws: seq<string>)
    requires forall i :: 0 <= i < |ws| ==> IsCleanWord(ws[i])
    ensures var r := Render(ws);
            && (r == "" || (r[0] != ' ' && r[|r| - 1] == ' '))
            && forall i :: 0 < i < |r| && r[i] == ' ' ==> r[i - 1] != ' '
  {
    if ws != [] {
      RenderFormat(ws[1..]);
      var w, rest := ws[0], Render(ws[1..]);
      var r := Render(ws);
      assert r == w + [' '] + rest;
      assert forall k :: 0 <= k < |w| ==> r[k] == w[k] && r[k] != ' ';
      assert r[|w|] == ' ';
      assert forall k :: |w| < k < |r| ==> r[k] == rest[k - |w| - 1];
    }
  }

  /** The cleaned review itself is empty or ends in a space, never starts with
      a space and never holds two spaces in a row. */
  lemma CleanedFormat(review: string, embeddings: set<string>)
    ensures var r := Cleaned(review, embeddings);
            && (r == "" || (r[0] != ' ' && r[|r| - 1] == ' '))
            && forall i :: 0 < i < |r| && r[i] == ' ' ==> r[i - 1] != ' '
  {
    TokensAreWords(RemoveBr(review));
    KeptAreCleanWords(Tokens(RemoveBr(review)), embeddings);
    RenderFormat(Kept(Tokens(RemoveBr(review)), embeddings));
  }

  /** Length of the longest prefix of `s` without whitespace. */
  function NonSpaceRun(s: string): (n: nat)
    ensures n <= |s|
  {
    if s != [] && !IsWhitespace(s[0]) then 1 + NonSpaceRun(s[1..]) else 0
  }

  /** `str::split_whitespace`: the maximal runs of non-whitespace characters, in order. */
  function SplitWhitespace(s: string): seq<string>
    decreases |s|
  {
    if s == [] then []
    else if IsWhitespace(s[0]) then SplitWhitespace(s[1..])
    else
      var n := NonSpaceRun(s);
      [s[..n]] + SplitWhitespace(s[n..])
  }

  lemma {:induction false} NonSpaceRunAppend(w: string, s: string)
    requires forall i :: 0 <= i < |w| ==> !IsWhitespace(w[i])
    ensures NonSpaceRun(w + s) == |w| + NonSpaceRun(s)
  {
    if w != [] {
      assert (w + s)[0] == w[0];
      assert (w + s)[1..] == w[1..] + s;
      NonSpaceRunAppend(w[1..], s);
    } else {
      assert w + s == s;
    }
  }

  /** Splitting a rendering on whitespace gives its words back. */
  lemma {:induction false} SplitRender(ws: seq<string>)
    requires forall i :: 0 <= i < |ws| ==> IsCleanWord(ws[i])
    ensures SplitWhitespace(Render(ws)) == ws
  {
    if ws != [] {
      var w, rest := ws[0], Render(ws[1..]);
      var r := Render(ws);
      assert r == w + ([' '] + rest);
      NonSpaceRunAppend(w, [' '] + rest);
      assert r[..|w|] == w && r[|w|..] == [' '] + rest;
      assert ([' '] + rest)[1..] == rest;
      SplitRender(ws[1..]);
    }
  }

  /** Every word of a cleaned review has an embedding, and the words of the
      cleaned review are exactly the kept words, in order. */
  lemma CleanedWords(review: string, embeddings: set<string>)
    ensures SplitWhitespace(Cleaned(review, embeddings)) == Kept(Tokens(RemoveBr(review)), embeddings)
    ensures forall w :: w in SplitWhitespace(Cleaned(review, embeddings)) ==> w in embeddings && IsCleanWord(w)
  {
    var ks := Kept(Tokens(RemoveBr(review)), embeddings);
    TokensAreWords(RemoveBr(review));
    KeptAreCleanWords(Tokens(RemoveBr(review)), embeddings);
    SplitRender(ks);
  }

  /** A character that starts or continues a word moves onto the word in progress. */
  lemma WordStep(clean: string, cur: string, text: string, i: nat, embeddings: set<string>, target: string)
    requires i < |text| && (IsAlphanumeric(text[i]) || (text[i] == '\'' && cur != ""))
    requires cur == "" || IsWord(cur)
    requires clean + Render(Kept(Tokens(cur + text[i..]), embeddings)) == target
    ensures IsWord(cur + [text[i]])
    ensures clean + Render(Kept(Tokens((cur + [text[i]]) + text[i + 1..]), embeddings)) == target
  {
    assert text[i..] == [text[i]] + text[i + 1..];
    assert cur + text[i..] == (cur + [text[i]]) + text[i + 1..];
    ExtendWord(cur, text[i]);
  }

  /** A character that cannot continue the word in progress ends it: the word,
      lower-cased, is added when it has an embedding, and the scan goes on after the character. */
  lemma BreakStep(clean: string, cur: string, text: string, i: nat, embeddings: set<string>, target: string)
    requires i < |text| && !IsAlphanumeric(text[i]) && (cur == "" || (IsWord(cur) && text[i] != '\''))
    requires clean + Render(Kept(Tokens(cur + text[i..]), embeddings)) == target
    ensures cur != "" && Lower(cur) in embeddings ==>
              clean + Lower(cur) + " " + Render(Kept(Tokens(text[i + 1..]), embeddings)) == target
    ensures cur == "" || Lower(cur) !in embeddings ==> clean + Render(Kept(Tokens(text[i + 1..]), embeddings)) == target
  {
    var s, tail := text[i..], text[i + 1..];
    assert s[0] == text[i] && s[1..] == tail;
    assert Tokens(s) == Tokens(tail);
    var rest := Render(Kept(Tokens(tail), embeddings));
    if cur == "" {
      assert cur + s == s;
    } else {
      WordThenBreak(cur, s);
      KeptRenderCons(cur, Tokens(s), embeddings);
      if Lower(cur) in embeddings {
        assert clean + (Lower(cur) + " " + rest) == clean + Lower(cur) + " " + rest;
      } else {
        assert "" + rest == rest;
      }
    }
  }

  /** At the end of the text, the word in progress is the last token. */
  lemma LastWord(clean: string, cur: string, embeddings: set<string>, target: string)
    requires IsWord(cur)
    requires clean + Render(Kept(Tokens(cur + []), embeddings)) == target
    ensures Lower(cur) in embeddings ==> clean + Lower(cur) + " " == target
    ensures Lower(cur) !in embeddings ==> clean == target
  {
    assert cur + [] == cur;
    WordThenBreak(cur, "");
    KeptRenderCons(cur, [], embeddings);
    assert cur + "" == cur;
  }

  /** The state of the character loop of `clean_review` before character `i`:
      `inWord` says whether a word is in progress, and what is already in
      `clean` followed by what the rest of the scan will add is the cleaned review. */
  ghost predicate Scanning(text: string, i: nat, clean: string, inWord: bool, currentWord: string,
                           embeddings: set<string>, target: string)
  {
    && i <= |text|
    && (inWord <==> currentWord != "")
    && (currentWord == "" || IsWord(currentWord))
    && clean + Render(Kept(Tokens(currentWord + text[i..]), embeddings)) == target
  }

  /** One pass of the character loop of `clean_review`, on character `i`. */
  method ScanCharacter(text: string, i: nat, clean: string, inWord: bool, currentWord: string,
                       embeddings: set<string>, ghost target: string)
    returns (clean': string, inWord': bool, currentWord': string)
    requires i < |text| && Scanning(text, i, clean, inWord, currentWord, embeddings, target)
    ensures Scanning(text, i + 1, clean', inWord', currentWord', embeddings, target)
  {
    clean', inWord', currentWord' := clean, inWord, currentWord;
    var character := text[i];
    if IsAlphanumeric(character) || (character == '\'' && inWord') {
      if !inWord' {
        inWord' := true;
      }
      WordStep(clean, currentWord, text, i, embeddings, target);
      currentWord' := currentWord' + [character];
    } else {
      BreakStep(clean, currentWord, text, i, embeddings, target);
      if inWord' {
        inWord' := false;
        if currentWord' != "" {
          var lower := Lower(currentWord');
          if lower in embeddings {
            clean' := clean' + lower + " ";
          }
          currentWord' := "";
        }
      }
      assert currentWord' + text[i + 1..] == text[i + 1..];
    }
  }

  /** `clean_review`. The `<br` removal is the library call; the character loop
      keeps a word in progress in `currentWord` and `inWord`. */
  method CleanReview(review: string, embeddings: set<string>) returns (clean: string)
    ensures clean == Cleaned(review, embeddings)
  {
    ghost var target := Cleaned(review, embeddings);
    var text := RemoveBr(review);
    clean := "";
    var inWord := false;
    var currentWord := "";
    var i := 0;
    assert currentWord + text[i..] == text;
    while i < |text|
      invariant Scanning(text, i, clean, inWord, currentWord, embeddings, target)
    {
      clean, inWord, currentWord := ScanCharacter(text, i, clean, inWord, currentWord, embeddings, target);
      i := i + 1;
    }
    if currentWord != "" {
      LastWord(clean, currentWord, embeddings, target);
      var lower := Lower(currentWord);
      if lower in embeddings {
        clean := clean + lower + " ";
      }
    } else {
      assert currentWord + text[i..] == [];
    }
  }

  /** Characters that neither start nor continue a word are skipped. */
  lemma {:induction false} SkipSeparators(sep: string, rest: string)
    requires forall i :: 0 <= i < |sep| ==> !IsWordChar(sep[i])
    ensures Tokens(sep + rest) == Tokens(rest)
  {
    if sep != [] {
      assert (sep + rest)[0] == sep[0];
      assert (sep + rest)[1..] == sep[1..] + rest;
      SkipSeparators(sep[1..], rest);
    } else {
      assert sep + rest == rest;
    }
  }

  /** A word, then separators, then the rest. */
  lemma WordThenSeparators(w: string, sep: string, rest: string)
    requires IsWord(w) && sep != [] && forall i :: 0 <= i < |sep| ==> !IsWordChar(sep[i])
    ensures Tokens(w + sep + rest) == [w] + Tokens(rest)
  {
    assert w + sep + rest == w + (sep + rest);
    WordThenBreak(w, sep + rest);
    SkipSeparators(sep, rest);
  }

  /** A run of characters that neither start nor continue a word. */
  predicate IsSeparator(sep: string)
  {
    sep != [] && forall i :: 0 <= i < |sep| ==> !IsWordChar(sep[i])
  }

  /** The words of `ws`, each followed by its own separator run `seps[i]`. */
  function Joined(ws: seq<string>, seps: seq<string>): string
    requires |seps| == |ws|
  {
    if ws == [] then "" else ws[0] + seps[0] + Joined(ws[1..], seps[1..])
  }

  /** Words joined by separator runs are split back into exactly those words.
      The run after the last word may be empty: the text may end in a word. */
  lemma {:induction false} TokensOfJoined(ws: seq<string>, seps: seq<string>)
    requires |seps| == |ws|
    requires forall i :: 0 <= i < |ws| ==> IsWord(ws[i])
    requires forall i :: 0 <= i < |seps| ==> IsSeparator(seps[i]) || (i == |seps| - 1 && seps[i] == "")
    ensures Tokens(Joined(ws, seps)) == ws
  {
    if ws != [] {
      TokensOfJoined(ws[1..], seps[1..]);
      var rest := Joined(ws[1..], seps[1..]);
      if seps[0] == "" {
        assert |ws| == 1 && rest == "";
        assert ws[0] + seps[0] + rest == ws[0] + "";
        WordThenBreak(ws[0], "");
      } else {
        WordThenSeparators(ws[0], seps[0], rest);
      }
      assert [ws[0]] + ws[1..] == ws;
    }
  }

  /** A leading run of separators does not change the words either. */
  lemma TokensOfLeadJoined(lead: string, ws: seq<string>, seps: seq<string>)
    requires forall i :: 0 <= i < |lead| ==> !IsWordChar(lead[i])
    requires |seps| == |ws|
    requires forall i :: 0 <= i < |ws| ==> IsWord(ws[i])
    requires forall i :: 0 <= i < |seps| ==> IsSeparator(seps[i]) || (i == |seps| - 1 && seps[i] == "")
    ensures Tokens(lead + Joined(ws, seps)) == ws
  {
    SkipSeparators(lead, Joined(ws, seps));
    TokensOfJoined(ws, seps);
  }

  /** Seven words with their separators, joined. */
  lemma JoinedSeven(w1: string, w2: string, w3: string, w4: string, w5: string, w6: string, w7: string,
                    s1: string, s2: string, s3: string, s4: string, s5: string, s6: string, s7: string)
    ensures Joined([w1, w2, w3, w4, w5, w6, w7], [s1, s2, s3, s4, s5, s6, s7])
         == w1 + s1 + (w2 + s2 + (w3 + s3 + (w4 + s4 + (w5 + s5 + (w6 + s6 + (w7 + s7 + ""))))))
  {
    var ws, ss := [w1, w2, w3, w4, w5, w6, w7], [s1, s2, s3, s4, s5, s6, s7];
    assert ws[1..] == [w2, w3, w4, w5, w6, w7] && ss[1..] == [s2, s3, s4, s5, s6, s7];
    assert ws[2..] == [w3, w4, w5, w6, w7] && ss[2..] == [s3, s4, s5, s6, s7];
    assert ws[3..] == [w4, w5, w6, w7] && ss[3..] == [s4, s5, s6, s7];
    assert ws[4..] == [w5, w6, w7] && ss[4..] == [s5, s6, s7];
    assert ws[5..] == [w6, w7] && ss[5..] == [s6, s7];
    assert ws[6..] == [w7] && ss[6..] == [s7];
    assert Joined(ws[6..], ss[6..]) == w7 + s7 + "";
    assert Joined(ws[5..], ss[5..]) == w6 + s6 + Joined(ws[6..], ss[6..]);
    assert Joined(ws[4..], ss[4..]) == w5 + s5 + Joined(ws[5..], ss[5..]);
    assert Joined(ws[3..], ss[3..]) == w4 + s4 + Joined(ws[4..], ss[4..]);
    assert Joined(ws[2..], ss[2..]) == w3 + s3 + Joined(ws[3..], ss[3..]);
    assert Joined(ws[1..], ss[1..]) == w2 + s2 + Joined(ws[2..], ss[2..]);
  }

  lemma ExampleWords(ws: seq<string>)
    requires ws == ["I", "love", "this", "movie", "It's", "so", "good"]
    ensures forall i :: 0 <= i < |ws| ==> IsWord(ws[i])
  {
    assert IsWord("I") && IsWord("love") && IsWord("this") && IsWord("movie");
    assert IsWord("It's") && IsWord("so") && IsWord("good");
  }

  lemma ExampleSeparators(ss: seq<string>)
    requires ss == [" ", " ", " ", "! ", " ", " ", "."]
    ensures forall i :: 0 <= i < |ss| ==> IsSeparator(ss[i])
  {
    assert IsSeparator(" ") && IsSeparator("! ") && IsSeparator(".");
  }

  /** The words of the documented example. */
  lemma ExampleTokens(review: string)
    requires review == "I love this movie! It's so good."
    ensures Tokens(review) == ["I", "love", "this", "movie", "It's", "so", "good"]
  {
    var ws := ["I", "love", "this", "movie", "It's", "so", "good"];
    var ss := [" ", " ", " ", "! ", " ", " ", "."];
    ExampleWords(ws);
    ExampleSeparators(ss);
    TokensOfJoined(ws, ss);
    JoinedSeven("I", "love", "this", "movie", "It's", "so", "good", " ", " ", " ", "! ", " ", " ", ".");
    ExampleText(review);
  }

  lemma ExampleText(review: string)
    requires review == "I love this movie! It's so good."
    ensures review == "I" + " " + ("love" + " " + ("this" + " " + ("movie" + "! " + ("It's" + " " + ("so" + " " + ("good" + "." + ""))))))
  {
  }

  lemma ExampleNoTag(review: string)
    requires review == "I love this movie! It's so good."
    ensures RemoveBr(review) == review
  {
    RemoveBrNoTag(review);
  }

  lemma ExampleKept(embeddings: set<string>)
    requires {"i", "love", "this", "movie", "it's", "so", "good"} <= embeddings
    ensures Kept(["I", "love", "this", "movie", "It's", "so", "good"], embeddings) == ["i", "love", "this", "movie", "it's", "so", "good"]
  {
    var ws := ["I", "love", "this", "movie", "It's", "so", "good"];
    assert Lower("I") == "i" && Lower("love") == "love" && Lower("this") == "this" && Lower("movie") == "movie";
    assert Lower("It's") == "it's" && Lower("so") == "so" && Lower("good") == "good";
    KeptAllEmbedded(ws, embeddings);
    assert LowerAll(ws) == ["i", "love", "this", "movie", "it's", "so", "good"];
  }

  /** Seven words rendered. */
  lemma RenderSeven(w1: string, w2: string, w3: string, w4: string, w5: string, w6: string, w7: string)
    ensures Render([w1, w2, w3, w4, w5, w6, w7])
         == w1 + " " + (w2 + " " + (w3 + " " + (w4 + " " + (w5 + " " + (w6 + " " + (w7 + " " + ""))))))
  {
    var ws := [w1, w2, w3, w4, w5, w6, w7];
    assert ws[1..] == [w2, w3, w4, w5, w6, w7];
    assert ws[2..] == [w3, w4, w5, w6, w7];
    assert ws[3..] == [w4, w5, w6, w7];
    assert ws[4..] == [w5, w6, w7];
    assert ws[5..] == [w6, w7];
    assert ws[6..] == [w7];
    assert Render(ws[6..]) == w7 + " " + "";
    assert Render(ws[5..]) == w6 + " " + Render(ws[6..]);
    assert Render(ws[4..]) == w5 + " " + Render(ws[5..]);
    assert Render(ws[3..]) == w4 + " " + Render(ws[4..]);
    assert Render(ws[2..]) == w3 + " " + Render(ws[3..]);
    assert Render(ws[1..]) == w2 + " " + Render(ws[2..]);
  }

  lemma ExampleRendered()
    ensures "i" + " " + ("love" + " " + ("this" + " " + ("movie" + " " + ("it's" + " " + ("so" + " " + ("good" + " " + ""))))))
         == "i love this movie it's so good "
  {
  }

  /** The example in the documentation of `clean_review`. */
  lemma CleanedExample(review: string, embeddings: set<string>)
    requires review == "I love this movie! It's so good."
    requires {"i", "love", "this", "movie", "it's", "so", "good"} <= embeddings
    ensures Cleaned(review, embeddings) == "i love this movie it's so good "
  {
    var ws := ["I", "love", "this", "movie", "It's", "so", "good"];
    ExampleNoTag(review);
    ExampleTokens(review);
    assert Tokens(RemoveBr(review)) == ws;
    ExampleKept(embeddings);
    RenderSeven("i", "love", "this", "movie", "it's", "so", "good");
    ExampleRendered();
  }

  /** `review_size` entries: the words in order, then empty strings. */
  function Padded(words: seq<string>, reviewSize: nat): (p: seq<string>)
  {
    seq(reviewSize, i requires 0 <= i < reviewSize => if i < |words| then words[i] else "")
  }

  /** Padding keeps the first `review_size` words and fills the rest with "":
      when there is room for every word, stripping the padding gives the words back. */
  lemma PaddedShape(words: seq<string>, reviewSize: nat)
    ensures |Padded(words, reviewSize)| == reviewSize
    ensures reviewSize <= |words| ==> Padded(words, reviewSize) == words[..reviewSize]
    ensures |words| <= reviewSize ==> Padded(words, reviewSize)[..|words|] == words
    ensures forall i :: |words| <= i < reviewSize ==> Padded(words, reviewSize)[i] == ""
  {
  }

  /** `pad_review`. */
  method PadReview(review: string, reviewSize: nat) returns (padded: seq<string>)
    ensures padded == Padded(SplitWhitespace(review), reviewSize)
  {
    var words := SplitWhitespace(review);
    padded := [];
    var i := 0;
    while i < reviewSize
      invariant 0 <= i <= reviewSize
      invariant padded == Padded(words, i)
    {
      var word := if i < |words| then words[i] else "";
      padded := padded + [word];
      i := i + 1;
    }
  }

  /** Every entry of a padded cleaned review is "" or a word with an embedding. */
  lemma PaddedCleanedEntries(review: string, embeddings: set<string>, reviewSize: nat)
    ensures var p := Padded(SplitWhitespace(Cleaned(review, embeddings)), reviewSize);
            forall i :: 0 <= i < |p| ==> p[i] == "" || p[i] in embeddings
  {
    CleanedWords(review, embeddings);
  }

  /** The sentiment label of a dataset record: 1 for "positive", 0 otherwise. */
  function Sentiment(record: string): (s: real)
    ensures s == 1.0 <==> record == "positive"
    ensures s == 0.0 <==> record != "positive"
  {
    if record == "positive" then 1.0 else 0.0
  }
}
