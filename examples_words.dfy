/** The documented scenarios on 'test string', run against the model with
    the stand-in patterns. Each scenario is written twice: a method over a
    text and patterns known only through the few facts the scenario needs,
    and a method on the documented string that establishes those facts and
    runs it. */
module WordExamples {
  import opened Wrappers
  import opened Bytes
  import opened Regex
  import opened StrScan
  import opened DocPatterns

  /* ----- facts about 'test string' ----- */

  /** The slices of 'test string' the scenarios return. */
  lemma TestStringSlices(t: Text)
    requires t == "test string"
    ensures |t| == 11 && t[..4] == "test" && t[4..5] == " " && t[5..] == "string"
    ensures t[..2] == "te" && t[..7] == "test st" && t[7..] == "ring"
  {
    assert t[4..5] == [t[4]];
    assert t[5..] == [t[5], t[6], t[7], t[8], t[9], t[10]];
    assert t[7..] == [t[7], t[8], t[9], t[10]];
  }

  /** /\w+/ on 'test string' and on what is left after "test" and "test ". */
  lemma TestStringWords(t: Text)
    requires t == "test string"
    ensures WordAt(t) == Match([Register(0, 4)]) && WordAt(t[4..]) == NoMatch
    ensures WordAt(t[5..]) == Match([Register(0, 6)])
  {
    assert t[4..] == " string" && t[5..] == "string";
    assert WordAt("test string") == Match([Register(0, 4)]);
    assert WordAt(" string") == NoMatch;
    assert WordAt("string") == Match([Register(0, 6)]);
  }

  /** /\s+/ and /\d+/ on 'test string' and its rests. */
  lemma TestStringSpacesDigits(t: Text)
    requires t == "test string"
    ensures SpacesAt(t[4..]) == Match([Register(0, 1)])
    ensures SpacesAt(t) == NoMatch && DigitsAt(t) == NoMatch && DigitsAt(t[2..]) == NoMatch
  {
    assert t[4..] == " string" && t[2..] == "st string";
    assert SpacesAt(" string") == Match([Register(0, 1)]);
    assert SpacesAt("test string") == NoMatch && DigitsAt("test string") == NoMatch;
    assert DigitsAt("st string") == NoMatch;
  }

  /** /../ on 'test string'. */
  lemma TestStringTwoBytes(t: Text)
    requires t == "test string"
    ensures TwoBytesAt(t) == Match([Register(0, 2)])
  {
    assert TwoBytesAt("test string") == Match([Register(0, 2)]);
  }

  /** What the class-based stand-ins do on 'test string' and its rests. */
  lemma TestStringFacts(t: Text)
    requires t == "test string"
    ensures |t| == 11 && t[..4] == "test" && t[4..5] == " " && t[5..] == "string"
    ensures t[..2] == "te" && t[..7] == "test st" && t[7..] == "ring"
    ensures WordAt(t) == Match([Register(0, 4)]) && WordAt(t[4..]) == NoMatch
    ensures SpacesAt(t[4..]) == Match([Register(0, 1)]) && WordAt(t[5..]) == Match([Register(0, 6)])
    ensures SpacesAt(t) == NoMatch && DigitsAt(t) == NoMatch
    ensures TwoBytesAt(t) == Match([Register(0, 2)]) && DigitsAt(t[2..]) == NoMatch
  {
    TestStringSlices(t);
    TestStringWords(t);
    TestStringSpacesDigits(t);
    TestStringTwoBytes(t);
  }

  /** /test/ matches the head of 'test string'. */
  lemma TestAtHead(t: Text, lit: Text)
    requires t == "test string" && lit == "test"
    ensures Literal(lit).reMatch(t) == Match([Register(0, 4)])
  {
    assert t[..4] == lit;
  }

  /** /s/ is first found at offset 2 of 'test string'. */
  lemma SFoundInString(t: Text, lit: Text)
    requires t == "test string" && lit == "s"
    ensures Literal(lit).reSearch(t) == Match([Register(2, 3)])
  {
    assert t[..2] == "te" && t[2..3] == lit;
    LiteralFoundAt(lit, t, 2);
  }

  /** /s/ is first found at offset 1 of the rest " string". */
  lemma SFoundInRest(t: Text, lit: Text)
    requires t == "test string" && lit == "s"
    ensures Literal(lit).reSearch(t[4..]) == Match([Register(1, 2)])
  {
    var r := t[4..];
    assert r[..1] == " " && r[1..2] == lit;
    LiteralFoundAt(lit, r, 1);
  }

  /** /e/ does not occur in the rest " string". */
  lemma ENotInRest(t: Text, lit: Text)
    requires t == "test string" && lit == "e"
    ensures Literal(lit).reSearch(t[4..]).NoMatch?
  {
    LiteralAbsent(lit, t[4..]);
  }

  /* ----- scan ----- */

  method ScanWords(t: Text, word: Regex, spaces: Regex, any: Regex)
    returns (a: Result<Value, Error>, b: Result<Value, Error>, c: Result<Value, Error>,
             d: Result<Value, Error>, e: Result<Value, Error>, pos: nat, eos: bool)
    requires Honest(word) && Honest(spaces) && Honest(any) && |t| == 11
    requires word.reMatch(t) == Match([Register(0, 4)]) && word.reMatch(t[4..]) == NoMatch
    requires spaces.reMatch(t[4..]) == Match([Register(0, 1)])
    requires word.reMatch(t[5..]) == Match([Register(0, 6)])
    ensures a == Ok(Str(t[..4])) && b == Ok(Nil) && c == Ok(Str(t[4..5]))
    ensures d == Ok(Str(t[5..])) && e == Ok(Nil)
    ensures pos == 11 && eos
  {
    var s := new Scanner(t, false);
    assert t[0..] == t;
    a := s.Scan(word);
    b := s.Scan(word);
    c := s.Scan(spaces);
    assert t[4..][1..] == t[5..];
    d := s.Scan(word);
    assert t[5..5 + 6] == t[5..];
    e := s.Scan(any);
    pos := s.Pos();
    eos := s.EosP();
  }

  /** scan(/\w+/) is "test", scan(/\w+/) nil, scan(/\s+/) " ",
      scan(/\w+/) "string", scan(/./) nil. */
  method ScanTestString() returns (a: Result<Value, Error>, b: Result<Value, Error>,
                                   c: Result<Value, Error>, d: Result<Value, Error>,
                                   e: Result<Value, Error>, pos: nat, eos: bool)
    ensures a == Ok(Str("test")) && b == Ok(Nil) && c == Ok(Str(" "))
    ensures d == Ok(Str("string")) && e == Ok(Nil)
    ensures pos == 11 && eos
  {
    var t: Text := "test string";
    TestStringFacts(t);
    Unfolded();
    a, b, c, d, e, pos, eos := ScanWords(t, Word, Spaces, AnyByte);
  }

  /* ----- skip ----- */

  method SkipWords(t: Text, word: Regex, spaces: Regex, any: Regex)
    returns (a: Result<Value, Error>, b: Result<Value, Error>, c: Result<Value, Error>,
             d: Result<Value, Error>, e: Result<Value, Error>)
    requires Honest(word) && Honest(spaces) && Honest(any) && |t| == 11
    requires word.reMatch(t) == Match([Register(0, 4)]) && word.reMatch(t[4..]) == NoMatch
    requires spaces.reMatch(t[4..]) == Match([Register(0, 1)])
    requires word.reMatch(t[5..]) == Match([Register(0, 6)])
    ensures a == Ok(Int(4)) && b == Ok(Nil) && c == Ok(Int(1)) && d == Ok(Int(6)) && e == Ok(Nil)
  {
    var s := new Scanner(t, false);
    assert t[0..] == t;
    a := s.Skip(word);
    b := s.Skip(word);
    c := s.Skip(spaces);
    assert t[4..][1..] == t[5..];
    d := s.Skip(word);
    e := s.Skip(any);
  }

  /** skip(/\w+/) is 4, skip(/\w+/) nil, skip(/\s+/) 1, skip(/\w+/) 6,
      skip(/./) nil. */
  method SkipTestString() returns (a: Result<Value, Error>, b: Result<Value, Error>,
                                   c: Result<Value, Error>, d: Result<Value, Error>,
                                   e: Result<Value, Error>)
    ensures a == Ok(Int(4)) && b == Ok(Nil) && c == Ok(Int(1)) && d == Ok(Int(6)) && e == Ok(Nil)
  {
    var t: Text := "test string";
    TestStringFacts(t);
    Unfolded();
    a, b, c, d, e := SkipWords(t, Word, Spaces, AnyByte);
  }

  /* ----- match?, matched?, matched ----- */

  method MatchWords(t: Text, word: Regex, spaces: Regex, digits: Regex)
    returns (a: Result<Value, Error>, m: Option<Text>, b: Result<Value, Error>,
             c: Result<Value, Error>, flag: bool, d: Result<Value, Error>)
    requires Honest(word) && Honest(spaces) && Honest(digits) && |t| == 11
    requires word.reMatch(t) == Match([Register(0, 4)])
    requires spaces.reMatch(t) == NoMatch && digits.reMatch(t) == NoMatch
    ensures a == Ok(Int(4)) && m == Some(t[..4]) && b == Ok(Int(4))
    ensures c == Ok(Nil) && !flag && d == Ok(Nil)
  {
    var s := new Scanner(t, false);
    assert t[0..] == t;
    a := s.MatchP(word);
    m := s.Matched();
    b := s.MatchP(word);
    c := s.MatchP(digits);
    flag := s.MatchedP();
    d := s.MatchP(spaces);
  }

  /** match?(/\w+/) is 4 and leaves matched "test"; a second match?(/\w+/)
      is 4 again; match?(/\d+/) is nil and clears matched?; match?(/\s+/)
      is nil. */
  method MatchTestString() returns (a: Result<Value, Error>, m: Option<Text>, b: Result<Value, Error>,
                                    c: Result<Value, Error>, flag: bool, d: Result<Value, Error>)
    ensures a == Ok(Int(4)) && m == Some("test") && b == Ok(Int(4))
    ensures c == Ok(Nil) && !flag && d == Ok(Nil)
  {
    var t: Text := "test string";
    TestStringFacts(t);
    Unfolded();
    a, m, b, c, flag, d := MatchWords(t, Word, Spaces, Digits);
  }

  /* ----- check and matched_size ----- */

  method CheckWord(t: Text, word: Regex, digits: Regex)
    returns (a: Result<Value, Error>, n: Option<int>, b: Result<Value, Error>, k: Option<int>)
    requires Honest(word) && Honest(digits) && |t| == 11
    requires word.reMatch(t) == Match([Register(0, 4)]) && digits.reMatch(t) == NoMatch
    ensures a == Ok(Str(t[..4])) && n == Some(4) && b == Ok(Nil) && k == None
  {
    var s := new Scanner(t, false);
    assert t[0..] == t;
    a := s.Check(word);
    n := s.MatchedSize();
    b := s.Check(digits);
    k := s.MatchedSize();
  }

  /** check(/\w+/) is "test" with matched_size 4; check(/\d+/) is nil with
      matched_size nil. */
  method CheckTestString() returns (a: Result<Value, Error>, n: Option<int>,
                                    b: Result<Value, Error>, k: Option<int>)
    ensures a == Ok(Str("test")) && n == Some(4) && b == Ok(Nil) && k == None
  {
    var t: Text := "test string";
    TestStringFacts(t);
    Unfolded();
    a, n, b, k := CheckWord(t, Word, Digits);
  }

  /* ----- exist? ----- */

  method ExistLetters(t: Text, letterS: Regex, test: Regex, letterE: Regex)
    returns (a: Result<Value, Error>, b: Result<Value, Error>, c: Result<Value, Error>,
             d: Result<Value, Error>)
    requires Honest(letterS) && Honest(test) && Honest(letterE) && |t| == 11
    requires letterS.reSearch(t) == Match([Register(2, 3)])
    requires test.reMatch(t) == Match([Register(0, 4)])
    requires letterS.reSearch(t[4..]) == Match([Register(1, 2)])
    requires letterE.reSearch(t[4..]).NoMatch?
    ensures a == Ok(Int(3)) && b == Ok(Str(t[..4])) && c == Ok(Int(2)) && d == Ok(Nil)
  {
    var s := new Scanner(t, false);
    assert t[0..] == t;
    a := s.ExistP(letterS);
    b := s.Scan(test);
    c := s.ExistP(letterS);
    d := s.ExistP(letterE);
  }

  /** exist?(/s/) is 3; scan(/test/) is "test"; exist?(/s/) is then 2, the
      distance from the pointer to the end of the match; exist?(/e/) is nil. */
  method ExistTestString() returns (a: Result<Value, Error>, b: Result<Value, Error>,
                                    c: Result<Value, Error>, d: Result<Value, Error>)
    ensures a == Ok(Int(3)) && b == Ok(Str("test")) && c == Ok(Int(2)) && d == Ok(Nil)
  {
    var t: Text := "test string";
    var s: Text, test: Text, e: Text := "s", "test", "e";
    TestStringFacts(t);
    SFoundInString(t, s);
    TestAtHead(t, test);
    SFoundInRest(t, s);
    ENotInRest(t, e);
    a, b, c, d := ExistLetters(t, Literal(s), Literal(test), Literal(e));
  }

  /* ----- unscan ----- */

  method UnscanWord(t: Text, word: Regex, two: Regex, digit: Regex)
    returns (a: Result<Value, Error>, u: Outcome<Error>, b: Result<Value, Error>,
             c: Result<Value, Error>, v: Outcome<Error>)
    requires Honest(word) && Honest(two) && Honest(digit) && |t| == 11
    requires word.reMatch(t) == Match([Register(0, 4)]) && two.reMatch(t) == Match([Register(0, 2)])
    requires digit.reMatch(t[2..]) == NoMatch
    ensures a == Ok(Str(t[..4])) && u == Pass && b == Ok(Str(t[..2])) && c == Ok(Nil)
    ensures v == Fail(ScanError(CannotUnscan))
  {
    var s := new Scanner(t, false);
    assert t[0..] == t;
    a := s.Scan(word);
    assert s.state.Succeeded? && s.state.prev == 0;
    u := s.Unscan();
    assert s.curr == 0 && s.str == t;
    b := s.Scan(two);
    c := s.Scan(digit);
    assert s.state.Unmatched?;
    v := s.Unscan();
  }

  /** scan(/\w+/) is "test"; unscan goes back to the start; scan(/../) is
      "te"; scan(/\d/) is nil, after which unscan raises ScanError. */
  method UnscanTestString() returns (a: Result<Value, Error>, u: Outcome<Error>,
                                     b: Result<Value, Error>, c: Result<Value, Error>,
                                     v: Outcome<Error>)
    ensures a == Ok(Str("test")) && u == Pass && b == Ok(Str("te")) && c == Ok(Nil)
    ensures v == Fail(ScanError(CannotUnscan))
  {
    var t: Text := "test string";
    TestStringFacts(t);
    Unfolded();
    a, u, b, c, v := UnscanWord(t, Word, TwoBytes, Digits);
  }

  /* ----- pre_match and post_match ----- */

  method AroundSpace(t: Text, word: Regex, spaces: Regex)
    returns (a: Result<Value, Error>, b: Result<Value, Error>, pre: Option<Text>, post: Option<Text>)
    requires Honest(word) && Honest(spaces) && |t| == 11
    requires word.reMatch(t) == Match([Register(0, 4)])
    requires spaces.reMatch(t[4..]) == Match([Register(0, 1)])
    ensures a == Ok(Str(t[..4])) && b == Ok(Str(t[4..5]))
    ensures pre == Some(t[..4]) && post == Some(t[5..])
  {
    var s := new Scanner(t, false);
    assert t[0..] == t;
    a := s.Scan(word);
    b := s.Scan(spaces);
    pre := s.PreMatch();
    post := s.PostMatch();
  }

  /** scan(/\w+/) is "test", scan(/\s+/) is " "; then pre_match is "test"
      and post_match "string". */
  method AroundSpaceTestString() returns (a: Result<Value, Error>, b: Result<Value, Error>,
                                          pre: Option<Text>, post: Option<Text>)
    ensures a == Ok(Str("test")) && b == Ok(Str(" "))
    ensures pre == Some("test") && post == Some("string")
  {
    var t: Text := "test string";
    TestStringFacts(t);
    Unfolded();
    a, b, pre, post := AroundSpace(t, Word, Spaces);
  }

  /* ----- peek, pos=, terminate ----- */

  method PeekSetPos(t: Text)
    returns (p: Result<Text, Error>, q: Result<Text, Error>, i: Result<int, Error>,
             rest: Text, before: nat, after: nat)
    requires |t| == 11
    ensures p == Ok(t[..7]) && q == p && i == Ok(7) && rest == t[7..]
    ensures before == 7 && after == 11
  {
    var s := new Scanner(t, false);
    p := s.Peek(7);
    q := s.Peek(7);
    i := s.SetPos(7);
    rest := s.Rest();
    before := s.Pos();
    s.Terminate();
    after := s.Pos();
  }

  /** peek(7) is "test st", twice, since peek does not move the pointer;
      pos = 7 leaves rest "ring"; terminate moves the pointer to 11. */
  method PeekSetPosTestString()
    returns (p: Result<Text, Error>, q: Result<Text, Error>, i: Result<int, Error>,
             rest: Text, before: nat, after: nat)
    ensures p == Ok("test st") && q == p && i == Ok(7) && rest == "ring"
    ensures before == 7 && after == 11
  {
    var t: Text := "test string";
    TestStringFacts(t);
    p, q, i, rest, before, after := PeekSetPos(t);
  }

  /* ----- getch ----- */

  method GetchTwo(t: Text, mbclen: byte -> int)
    returns (a: Option<Text>, b: Option<Text>, c: Option<Text>)
    requires |t| == 2 && forall c: byte :: mbclen(c) == 1
    ensures a == Some(t[..1]) && b == Some(t[1..]) && c == None
  {
    var s := new Scanner(t, false);
    a := s.Getch(mbclen);
    b := s.Getch(mbclen);
    assert t[1..2] == t[1..];
    c := s.Getch(mbclen);
  }

  /** On 'ab' with a one-byte encoding getch is "a", then "b", then nil. */
  method GetchAb() returns (a: Option<Text>, b: Option<Text>, c: Option<Text>)
    ensures a == Some("a") && b == Some("b") && c == None
  {
    var t: Text := "ab";
    assert t[..1] == "a" && t[1..] == "b";
    a, b, c := GetchTwo(t, (c: byte) => 1);
  }
}
