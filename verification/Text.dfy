/** C strings as Dafny strings, and where one text stands in another. */
module Text {

  datatype Option<+T> = None | Some(value: T)

  const NUL: char := 0 as char

  /** `s` stands in `js` at offset `p`. */
  predicate Has(js: string, p: nat, s: string) {
    p + |s| <= |js| && js[p..p + |s|] == s
  }

  lemma HasConcat(js: string, p: nat, a: string, b: string)
    requires Has(js, p, a + b)
    ensures Has(js, p, a) && Has(js, p + |a|, b)
  {
    assert js[p..p + |a|] == (a + b)[..|a|] == a;
    assert js[p + |a|..p + |a| + |b|] == (a + b)[|a|..] == b;
  }

  lemma HasChar(js: string, p: nat, c: char, s: string)
    requires Has(js, p, [c] + s)
    ensures p < |js| && js[p] == c && Has(js, p + 1, s)
  {
    HasConcat(js, p, [c], s);
    assert js[p] == js[p..p + 1][0];
  }

  /** The parts of `s` between the characters `c`. */
  function Split(s: string, c: char): (parts: seq<string>)
    ensures parts != []
  {
    if s == "" then [""]
    else
      var more := Split(s[1..], c);
      if s[0] == c then [""] + more else [[s[0]] + more[0]] + more[1..]
  }

  /** The first part, if none of it is a `c`. */
  lemma {:induction false} SplitFirst(a: string, b: string, c: char)
    requires c !in a
    ensures Split(a + ([c] + b), c) == [a] + Split(b, c)
    decreases |a|
  {
    if a == "" {
      assert "" + ([c] + b) == [c] + b && ([c] + b)[1..] == b;
    } else {
      assert (a + ([c] + b))[1..] == a[1..] + ([c] + b);
      assert a[0] in a && forall x :: x in a[1..] ==> x in a;
      SplitFirst(a[1..], b, c);
      assert [a[0]] + a[1..] == a;
      assert ([a[1..]] + Split(b, c))[1..] == Split(b, c);
    }
  }

  lemma {:induction false} SplitOne(a: string, c: char)
    requires c !in a
    ensures Split(a, c) == [a]
    decreases |a|
  {
    if a != "" {
      assert a[0] in a && forall x :: x in a[1..] ==> x in a;
      SplitOne(a[1..], c);
      assert [a[0]] + a[1..] == a;
    }
  }
}
