/** The operation table of the REST documentation's landing page: each
    row's route cell reads `METHOD path`. */
module LandingOperations {
  import opened Wrappers
  import opened Strings

  datatype RawOperation = RawOperation(href: string, route: string, description: string)

  /** `RawOperation::method`: the first word of the route. */
  function Method(op: RawOperation): (r: Result<string, string>)
    ensures r.Ok? <==> |SplitAsciiWhitespace(op.route)| >= 1
    ensures r.Ok? ==> r.value == SplitAsciiWhitespace(op.route)[0]
    ensures r.Err? ==> r.error == "Failed to get method"
  {
    var words := SplitAsciiWhitespace(op.route);
    if |words| >= 1 then Ok(words[0]) else Err("Failed to get method")
  }

  /** `RawOperation::path`: the second word of the route. */
  function Path(op: RawOperation): (r: Result<string, string>)
    ensures r.Ok? <==> |SplitAsciiWhitespace(op.route)| >= 2
    ensures r.Ok? ==> r.value == SplitAsciiWhitespace(op.route)[1]
    ensures r.Err? ==> r.error == "Failed to get path"
  {
    var words := SplitAsciiWhitespace(op.route);
    if |words| >= 2 then Ok(words[1]) else Err("Failed to get path")
  }

  predicate IsWord(w: string)
  {
    w != [] && forall c :: c in w ==> !IsAsciiWhitespace(c)
  }

  /** A word followed by a space splits off as the first word. */
  lemma SplitWord(w: string, rest: string)
    requires IsWord(w)
    ensures SplitAsciiWhitespace(w + " " + rest) == [w] + SplitAsciiWhitespace(rest)
  {
    var s := w + " " + rest;
    assert !IsAsciiWhitespace(s[0]) by { assert s[0] == w[0] && w[0] in w; }
    assert TrimStart(s, IsAsciiWhitespace) == s;
    TakeWordOf(w, " " + rest);
    assert s == w + (" " + rest);
    assert s[|w|..] == " " + rest;
    assert TrimStart(" " + rest, IsAsciiWhitespace) == TrimStart(rest, IsAsciiWhitespace) by {
      assert (" " + rest)[1..] == rest;
    }
    SplitFromSpace(rest);
  }

  lemma {:induction false} TakeWordOf(w: string, rest: string)
    requires forall c :: c in w ==> !IsAsciiWhitespace(c)
    requires rest != [] && IsAsciiWhitespace(rest[0])
    ensures TakeWord(w + rest) == w
  {
    if w != [] {
      assert w[0] in w;
      assert (w + rest)[1..] == w[1..] + rest;
      assert forall c :: c in w[1..] ==> c in w;
      TakeWordOf(w[1..], rest);
    } else {
      assert w + rest == rest;
    }
  }

  /** Leading whitespace does not change the words. */
  lemma SplitFromSpace(rest: string)
    ensures SplitAsciiWhitespace(" " + rest) == SplitAsciiWhitespace(rest)
  {
    assert TrimStart(" " + rest, IsAsciiWhitespace) == TrimStart(rest, IsAsciiWhitespace) by {
      assert (" " + rest)[1..] == rest;
    }
  }

  /** The method and path are the first two words; whatever follows them
      changes neither. */
  lemma LaterWordsIgnored(m: string, p: string, rest: string, href: string, description: string)
    requires IsWord(m) && IsWord(p)
    ensures Method(RawOperation(href, m + " " + p + " " + rest, description)) == Ok(m)
    ensures Path(RawOperation(href, m + " " + p + " " + rest, description)) == Ok(p)
  {
    var route := m + " " + p + " " + rest;
    FirstTwoWords(m, p, rest, route);
  }

  lemma FirstTwoWords(m: string, p: string, rest: string, route: string)
    requires IsWord(m) && IsWord(p) && route == m + " " + p + " " + rest
    ensures |SplitAsciiWhitespace(route)| >= 2
    ensures SplitAsciiWhitespace(route)[0] == m && SplitAsciiWhitespace(route)[1] == p
  {
    var tail := p + " " + rest;
    assert route == m + " " + tail;
    SplitWord(m, tail);
    SplitWord(p, rest);
    var words := SplitAsciiWhitespace(rest);
    assert SplitAsciiWhitespace(route) == [m] + ([p] + words);
    assert ([m] + ([p] + words))[1] == p;
  }
}
