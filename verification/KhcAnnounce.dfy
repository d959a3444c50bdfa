/** Which header lines announce a chunked body, said of the text of the line. */
module KhcAnnounce {
  import opened Text
  import opened KhcText
  import opened KhcMachine
  import opened KhcNumeral

  /** The word stands in `s` at `k`, in any mixture of cases. */
  predicate Stands(s: string, word: string, k: nat) { k + |word| <= |s| && Fold(s[k..k + |word|]) == word }

  ghost predicate Mentions(s: string, word: string) { exists k: nat :: Stands(s, word, k) }

  /** The line is a key, a colon and a value; the key is a beginning of `transfer-encoding`, in any mixture of
      cases, and `chunked` stands in the value.  (The code does not ask for the whole key.) */
  ghost predicate Announces(line: string) {
    exists i: nat ::
      && i < |line| && line[i] == ':' && (forall j :: 0 <= j < i ==> line[j] != ':')
      && Fold(line[..i]) <= "transfer-encoding" && Mentions(line[i + 1..], "chunked")
  }

  // ---------------------------------------------------------------------------------------------
  // Letters in either case

  lemma KeyLetters(j: nat)
    requires j < 17
    ensures |"transfer-encoding"| == |"TRANSFER-ENCODING"| == 17
    ensures var l := "transfer-encoding"[j]; (l == '-' || 'a' <= l <= 'z') && "TRANSFER-ENCODING"[j] == Upper(l)
  {
    assert "transfer-encoding" == ['t', 'r', 'a', 'n', 's', 'f', 'e', 'r', '-', 'e', 'n', 'c', 'o', 'd', 'i', 'n', 'g'];
    assert "TRANSFER-ENCODING" == ['T', 'R', 'A', 'N', 'S', 'F', 'E', 'R', '-', 'E', 'N', 'C', 'O', 'D', 'I', 'N', 'G'];
  }

  lemma WordLetters(j: nat)
    requires j < 7
    ensures |"chunked"| == |"CHUNKED"| == 7
    ensures 'a' <= "chunked"[j] <= 'z' && "CHUNKED"[j] == Upper("chunked"[j])
  {
    assert "chunked" == ['c', 'h', 'u', 'n', 'k', 'e', 'd'] && "CHUNKED" == ['C', 'H', 'U', 'N', 'K', 'E', 'D'];
  }

  lemma EitherCase(c: char, l: char)
    requires l == '-' || 'a' <= l <= 'z'
    ensures c == Upper(l) || c == l <==> Lower(c) == l
  {
  }

  // ---------------------------------------------------------------------------------------------
  // The key

  /** Up to `i` the line is a beginning of the key. */
  predicate KeySoFar(line: string, i: nat)
    requires i <= |line|
  {
    i <= 17 && forall j :: 0 <= j < i ==> Lower(line[j]) == "transfer-encoding"[j]
  }

  lemma KeyFolds(line: string, i: nat)
    requires i <= |line|
    ensures KeySoFar(line, i) <==> Fold(line[..i]) <= "transfer-encoding"
  {
    var t := Fold(line[..i]);
    assert |"transfer-encoding"| == 17 by { KeyLetters(0); }
    assert forall j :: 0 <= j < i ==> t[j] == Lower(line[j]);
  }

  /** Where the scan of the key ends: at the first colon, if the key is one so far. */
  lemma {:induction false} KeyFound(line: string, i: nat, c: nat)
    requires NUL !in line && i <= c < |line| && line[c] == ':' && (forall j :: i <= j < c ==> line[j] != ':')
    requires KeySoFar(line, i)
    ensures KeyColon(line, "TRANSFER-ENCODING", "transfer-encoding", i) == if KeySoFar(line, c) then Some(c) else None
    decreases c - i
  {
    if i < c {
      assert line[i] in line;
      if i < 17 {
        KeyLetters(i);
        EitherCase(line[i], "transfer-encoding"[i]);
      } else {
        KeyLetters(0);
      }
      if KeySoFar(line, i + 1) { KeyFound(line, i + 1, c); }
    }
  }

  lemma {:induction false} NoColon(line: string, i: nat)
    requires i <= |line| && forall j :: i <= j < |line| ==> line[j] != ':'
    ensures KeyColon(line, "TRANSFER-ENCODING", "transfer-encoding", i) == None
    decreases |line| - i
  {
    if i < |line| { NoColon(line, i + 1); }
  }

  // ---------------------------------------------------------------------------------------------
  // The value

  lemma WordAt(s: string, k: nat)
    requires NUL !in s && k < |s|
    ensures ChunkedAt(s, k) <==> Stands(s, "chunked", k)
  {
    WordLetters(0);
    if k + 7 <= |s| {
      var t := Fold(s[k..k + 7]);
      forall j | 0 <= j < 7
        ensures CharAt(s, k + j) == "CHUNKED"[j] || CharAt(s, k + j) == "chunked"[j] <==> t[j] == "chunked"[j]
      {
        WordLetters(j);
        EitherCase(s[k + j], "chunked"[j]);
        assert t[j] == Lower(s[k..k + 7][j]);
      }
    } else {
      var j := |s| - k;
      WordLetters(j);
      assert CharAt(s, k + j) == NUL;
    }
  }

  lemma ContainsIff(s: string)
    requires NUL !in s
    ensures ContainsChunked(s) <==> Mentions(s, "chunked")
  {
    hide ChunkedAt;
    WordLetters(0);
    forall k: nat | k < |s| ensures ChunkedAt(s, k) <==> Stands(s, "chunked", k) { WordAt(s, k); }
    if ContainsChunked(s) {
      var k :| 0 <= k < |s| && ChunkedAt(s, k);
      assert Stands(s, "chunked", k);
    }
  }

  /** Blanks in front of the value are no part of the word. */
  lemma {:induction false} BlanksSkipped(line: string, i: nat)
    requires i <= |line| && NUL !in line
    ensures var j := SkipBlanks(line, i);
            j <= |line| && (Mentions(line[i..], "chunked") <==> Mentions(line[j..], "chunked"))
    decreases |line| - i
  {
    if i < |line| && (line[i] == ' ' || line[i] == '\t') {
      BlanksSkipped(line, i + 1);
      BlankInFront(line[i..]);
      assert line[i..][1..] == line[i + 1..];
    }
  }

  lemma BlankInFront(s: string)
    requires s != "" && (s[0] == ' ' || s[0] == '\t')
    ensures Mentions(s, "chunked") <==> Mentions(s[1..], "chunked")
  {
    hide Fold;
    WordLetters(0);
    if k: nat :| Stands(s, "chunked", k) {
      FirstFolded(s, k);
      assert s[1..][k - 1..k - 1 + 7] == s[k..k + 7];
      assert Stands(s[1..], "chunked", k - 1);
    }
    if k: nat :| Stands(s[1..], "chunked", k) {
      assert s[1..][k..k + 7] == s[k + 1..k + 1 + 7];
      assert Stands(s, "chunked", k + 1);
    }
  }

  lemma FirstFolded(s: string, k: nat)
    requires Stands(s, "chunked", k) && |"chunked"| == 7
    ensures 'a' <= Lower(s[k]) <= 'z'
  {
    WordLetters(0);
    assert Fold(s[k..k + 7])[0] == Lower(s[k]);
  }

  lemma MentionsLength(s: string)
    ensures Mentions(s, "chunked") ==> |s| >= 7
  {
    WordLetters(0);
  }

  // ---------------------------------------------------------------------------------------------
  // The line

  lemma {:induction false} FirstColon(line: string, i: nat) returns (c: nat)
    requires i <= |line| && exists j :: i <= j < |line| && line[j] == ':'
    ensures i <= c < |line| && line[c] == ':' && forall j :: i <= j < c ==> line[j] != ':'
    decreases |line| - i
  {
    c := i;
    if line[i] != ':' { c := FirstColon(line, i + 1); }
  }

  /** A header line is taken for one that announces a chunked body exactly if its text says so. */
  lemma AnnouncesIff(line: string)
    requires NUL !in line
    ensures IsChunkedEncoding(line) <==> Announces(line)
  {
    hide KeyColon, SkipBlanks, ContainsChunked, Mentions, KeySoFar;
    if exists j :: 0 <= j < |line| && line[j] == ':' {
      var c := FirstColon(line, 0);
      assert KeySoFar(line, 0) by { NothingYet(line); }
      KeyFound(line, 0, c);
      KeyFolds(line, c);
      BlanksSkipped(line, c + 1);
      var j := SkipBlanks(line, c + 1);
      ContainsIff(line[j..]);
      MentionsLength(line[j..]);
      if KeySoFar(line, c) && Mentions(line[c + 1..], "chunked") { assert Announces(line); }
    } else {
      NoColon(line, 0);
    }
  }

  lemma NothingYet(line: string)
    ensures KeySoFar(line, 0)
  {
  }

  // ---------------------------------------------------------------------------------------------
  // The lines that must not be skipped

  /** The line begins with that name, in any mixture of cases, and a colon. */
  predicate Names(line: string, name: string) {
    |name| < |line| && line[|name|] == ':' && Fold(line[..|name|]) == name
  }

  predicate IsLetter(c: char) { c == '-' || 'a' <= c <= 'z' || 'A' <= c <= 'Z' }

  lemma PresentIff(key: string, line: string)
    requires forall i :: 0 <= i < |key| ==> IsLetter(key[i])
    ensures IsHeaderPresent(key, line) <==> Names(line, Fold(key))
  {
    if |key| < |line| {
      var t := Fold(line[..|key|]);
      assert forall i :: 0 <= i < |key| ==> t[i] == Lower(line[i]);
      forall i | 0 <= i < |key|
        ensures line[i] != ':' && (line[i] == Lower(key[i]) || line[i] == Upper(key[i])) <==> t[i] == Fold(key)[i]
      {
        assert IsLetter(key[i]);
      }
    }
  }

  lemma KeyNames()
    ensures Fold("Content-Length") == "content-length" && Fold("Transfer-Encoding") == "transfer-encoding"
    ensures forall i :: 0 <= i < |"Content-Length"| ==> IsLetter("Content-Length"[i])
    ensures forall i :: 0 <= i < |"Transfer-Encoding"| ==> IsLetter("Transfer-Encoding"[i])
  {
    assert "Content-Length" == ['C', 'o', 'n', 't', 'e', 'n', 't', '-', 'L', 'e', 'n', 'g', 't', 'h'];
    assert "content-length" == ['c', 'o', 'n', 't', 'e', 'n', 't', '-', 'l', 'e', 'n', 'g', 't', 'h'];
    assert "Transfer-Encoding" == ['T', 'r', 'a', 'n', 's', 'f', 'e', 'r', '-', 'E', 'n', 'c', 'o', 'd', 'i', 'n', 'g'];
    assert "transfer-encoding" == ['t', 'r', 'a', 'n', 's', 'f', 'e', 'r', '-', 'e', 'n', 'c', 'o', 'd', 'i', 'n', 'g'];
  }

  /** An over-long line ends the run with an error, instead of being skipped, exactly if what is buffered of it
      begins with one of the two names that frame a body. */
  lemma RequiredIff(line: string)
    ensures RequiredHeader(line) <==> Names(line, "content-length") || Names(line, "transfer-encoding")
  {
    hide IsHeaderPresent, Names, Fold;
    KeyNames();
    PresentIff("Content-Length", line);
    PresentIff("Transfer-Encoding", line);
  }
}
