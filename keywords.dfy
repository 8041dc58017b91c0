/** Python's `str.split()` with no separator: split on runs of whitespace,
    dropping the empty pieces at either end and between runs. */
module Keywords {

  /** The characters Python's `str.isspace` accepts, which are the ones
      `split()` breaks on. */
  predicate IsSpace(c: char) {
    var n := c as int;
    (9 <= n <= 13) || (28 <= n <= 32) || n == 0x85 || n == 0xA0 || n == 0x1680
    || (0x2000 <= n <= 0x200A) || n == 0x2028 || n == 0x2029 || n == 0x202F
    || n == 0x205F || n == 0x3000
  }

  predicate NoSpace(w: string) {
    forall i :: 0 <= i < |w| ==> !IsSpace(w[i])
  }

  predicate AllSpace(s: string) {
    forall i :: 0 <= i < |s| ==> IsSpace(s[i])
  }

  /** A piece `split()` can produce: non-empty and free of whitespace. */
  predicate IsWord(w: string) {
    w != [] && NoSpace(w)
  }

  /** Length of the longest whitespace-free prefix of `s`. */
  function WordLength(s: string): (k: nat)
    ensures k <= |s|
    ensures NoSpace(s[..k])
    ensures k < |s| ==> IsSpace(s[k])
    decreases |s|
  {
    if s == [] || IsSpace(s[0]) then 0 else 1 + WordLength(s[1..])
  }

  /** `s.split()`. */
  function Split(s: string): (words: seq<string>)
    ensures forall i :: 0 <= i < |words| ==> IsWord(words[i])
    decreases |s|
  {
    if s == [] then []
    else if IsSpace(s[0]) then Split(s[1..])
    else
      var k := WordLength(s);
      [s[..k]] + Split(s[k..])
  }

  /** `s` with every whitespace character removed. */
  function RemoveSpaces(s: string): string
    decreases |s|
  {
    if s == [] then [] else (if IsSpace(s[0]) then [] else [s[0]]) + RemoveSpaces(s[1..])
  }

  /** The pieces written one after another, as `"".join(words)`. */
  function Concat(words: seq<string>): string
    decreases |words|
  {
    if words == [] then [] else words[0] + Concat(words[1..])
  }

  /** The pieces joined by single spaces, as `" ".join(words)`. */
  function Join(words: seq<string>): string
    decreases |words|
  {
    if words == [] then []
    else if |words| == 1 then words[0]
    else words[0] + " " + Join(words[1..])
  }

  lemma {:induction false} RemoveSpacesAppend(a: string, b: string)
    ensures RemoveSpaces(a + b) == RemoveSpaces(a) + RemoveSpaces(b)
    decreases |a|
  {
    if a == [] {
      assert a + b == b;
    } else {
      assert (a + b)[1..] == a[1..] + b;
      RemoveSpacesAppend(a[1..], b);
    }
  }

  lemma {:induction false} RemoveSpacesOfWord(w: string)
    requires NoSpace(w)
    ensures RemoveSpaces(w) == w
    decreases |w|
  {
    if w != [] {
      RemoveSpacesOfWord(w[1..]);
    }
  }

  /** Splitting loses nothing but whitespace and keeps the order of the
      characters: the pieces, written back to back, are `s` without its
      whitespace. */
  lemma {:induction false} SplitKeepsText(s: string)
    ensures Concat(Split(s)) == RemoveSpaces(s)
    decreases |s|
  {
    if s == [] {
    } else if IsSpace(s[0]) {
      SplitKeepsText(s[1..]);
    } else {
      var k := WordLength(s);
      var words := Split(s);
      assert words == [s[..k]] + Split(s[k..]);
      assert words[1..] == Split(s[k..]);
      SplitKeepsText(s[k..]);
      assert s == s[..k] + s[k..];
      RemoveSpacesAppend(s[..k], s[k..]);
      RemoveSpacesOfWord(s[..k]);
    }
  }

  /** `split()` yields no piece exactly when the text is all whitespace
      (the empty text included). */
  lemma {:induction false} SplitEmptyIffAllSpace(s: string)
    ensures Split(s) == [] <==> AllSpace(s)
    decreases |s|
  {
    if s != [] && IsSpace(s[0]) {
      SplitEmptyIffAllSpace(s[1..]);
      if AllSpace(s[1..]) {
        forall i | 0 <= i < |s| ensures IsSpace(s[i]) {
          if i > 0 { assert s[i] == s[1..][i - 1]; }
        }
      }
    }
  }

  lemma {:induction false} WordLengthOfWord(w: string, rest: string)
    requires NoSpace(w)
    requires rest == [] || IsSpace(rest[0])
    ensures WordLength(w + rest) == |w|
    decreases |w|
  {
    if w == [] {
      assert w + rest == rest;
    } else {
      assert (w + rest)[1..] == w[1..] + rest;
      WordLengthOfWord(w[1..], rest);
    }
  }

  /** A word followed by nothing or by whitespace splits off as the first piece. */
  lemma SplitLeadingWord(w: string, rest: string)
    requires IsWord(w)
    requires rest == [] || IsSpace(rest[0])
    ensures Split(w + rest) == [w] + Split(rest)
  {
    var s := w + rest;
    var k := WordLength(s);
    WordLengthOfWord(w, rest);
    assert s[..k] == w;
    assert s[k..] == rest;
  }

  /** Splitting undoes joining with single spaces, for pieces `split()`
      could have produced. */
  lemma {:induction false} SplitJoin(words: seq<string>)
    requires forall i :: 0 <= i < |words| ==> IsWord(words[i])
    ensures Split(Join(words)) == words
    decreases |words|
  {
    if |words| == 1 {
      SplitLeadingWord(words[0], []);
      assert words[0] + [] == words[0];
    } else if |words| > 1 {
      var rest := Join(words[1..]);
      SplitJoin(words[1..]);
      assert Split(" " + rest) == Split(rest) by {
        assert (" " + rest)[1..] == rest;
      }
      assert Join(words) == words[0] + (" " + rest);
      SplitLeadingWord(words[0], " " + rest);
    }
  }

  /** A run of whitespace is one separator: cutting the text at any
      whitespace character splits the two sides independently, so leading,
      trailing and repeated whitespace give no empty piece and join no two
      words. */
  lemma {:induction false} SplitAtSpace(a: string, c: char, b: string)
    requires IsSpace(c)
    ensures Split(a + [c] + b) == Split(a) + Split(b)
    decreases |a|
  {
    var s := a + [c] + b;
    if a == [] {
      assert s[1..] == b;
    } else if IsSpace(a[0]) {
      assert s[1..] == a[1..] + [c] + b;
      SplitAtSpace(a[1..], c, b);
    } else {
      var k := WordLength(a);
      var w := a[..k];
      var rest := a[k..] + [c] + b;
      assert a == w + a[k..];
      assert s == w + rest;
      assert rest[0] == (if k < |a| then a[k] else c);
      WordLengthOfWord(w, rest);
      assert s[..k] == w && s[k..] == rest;
      SplitAtSpace(a[k..], c, b);
    }
  }

  /** The developer query of the module's own example. */
  lemma SplitExample()
    ensures Split("SquareSoft Capcom") == ["SquareSoft", "Capcom"]
  {
    assert IsWord("SquareSoft") && IsWord("Capcom");
    assert Join(["SquareSoft", "Capcom"]) == "SquareSoft Capcom";
    SplitJoin(["SquareSoft", "Capcom"]);
  }
}
