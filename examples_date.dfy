/** The documented scenarios on "Fri Dec 12 1975 14:39", run against the
    model with the stand-in patterns, written in the same two halves as the
    ones on 'test string'. */
module DateExamples {
  import opened Wrappers
  import opened Bytes
  import opened Regex
  import opened StrScan
  import opened DocPatterns

  /* ----- facts about "Fri Dec 12 1975 14:39" ----- */

  /** The slices the scenarios return. */
  lemma DateSlices(t: Text)
    requires t == "Fri Dec 12 1975 14:39"
    ensures |t| == 21 && t[..3] == "Fri" && t[4..7] == "Dec" && t[8..10] == "12"
    ensures t[..8] == "Fri Dec " && t[..9] == "Fri Dec 1" && t[..10] == "Fri Dec 12"
    ensures t[..11] == "Fri Dec 12 " && t[11..] == "1975 14:39"
  {
    assert t[4..7] == [t[4], t[5], t[6]];
    assert t[8..10] == [t[8], t[9]];
  }

  /** "Fri" is a word run ending at 3. */
  lemma FriRun(t: Text)
    requires t == "Fri Dec 12 1975 14:39"
    ensures RunEnd(t, 0, IsWord) == 3
  {
    assert RunEnd(t, 3, IsWord) == 3;
    assert RunEnd(t, 2, IsWord) == 3;
    assert RunEnd(t, 1, IsWord) == 3;
  }

  /** "Dec" is a word run from 4 ending at 7. */
  lemma DecRun(t: Text)
    requires t == "Fri Dec 12 1975 14:39"
    ensures RunEnd(t, 4, IsWord) == 7
  {
    assert RunEnd(t, 7, IsWord) == 7;
    assert RunEnd(t, 6, IsWord) == 7;
    assert RunEnd(t, 5, IsWord) == 7;
  }

  /** "12" is a digit run from 8 ending at 10. */
  lemma TwelveRun(t: Text)
    requires t == "Fri Dec 12 1975 14:39"
    ensures RunEnd(t, 8, IsDigit) == 10
  {
    assert RunEnd(t, 10, IsDigit) == 10;
    assert RunEnd(t, 9, IsDigit) == 10;
  }

  /** /(\w+) (\w+) (\d+) / on the date: the whole of "Fri Dec 12 " and its
      three groups. */
  lemma DateGroupsFound(t: Text)
    requires t == "Fri Dec 12 1975 14:39"
    ensures DateGroupsAt(t) ==
      Match([Register(0, 11), Register(0, 3), Register(4, 7), Register(8, 10)])
  {
    FriRun(t);
    DecRun(t);
    TwelveRun(t);
    assert |t| == 21 && t[3] == ' ' && t[7] == ' ' && t[10] == ' ';
  }

  /** /Fri/ matches the head of the date. */
  lemma FriAtHead(t: Text, lit: Text)
    requires t == "Fri Dec 12 1975 14:39" && lit == "Fri"
    ensures Literal(lit).reMatch(t) == Match([Register(0, 3)])
  {
    assert t[..3] == lit;
  }

  /** /12/ does not match the head of the date. */
  lemma TwelveNotAtHead(t: Text, lit: Text)
    requires t == "Fri Dec 12 1975 14:39" && lit == "12"
    ensures Literal(lit).reMatch(t).NoMatch?
  {
    assert t[..2] != lit by { assert t[0] != lit[0]; }
  }

  /** /12/ is first found at offset 8. */
  lemma TwelveFound(t: Text, lit: Text)
    requires t == "Fri Dec 12 1975 14:39" && lit == "12"
    ensures Literal(lit).reSearch(t) == Match([Register(8, 10)])
  {
    assert t[..8] == "Fri Dec " && t[8..10] == lit;
    LiteralFoundAt(lit, t, 8);
  }

  /** /1/ is first found at offset 8. */
  lemma OneFound(t: Text, lit: Text)
    requires t == "Fri Dec 12 1975 14:39" && lit == "1"
    ensures Literal(lit).reSearch(t) == Match([Register(8, 9)])
  {
    assert t[..8] == "Fri Dec " && t[8..9] == lit;
    LiteralFoundAt(lit, t, 8);
  }

  /** /XYZ/ does not occur after "Fri Dec 1". */
  lemma XyzAbsent(t: Text, lit: Text)
    requires t == "Fri Dec 12 1975 14:39" && lit == "XYZ"
    ensures Literal(lit).reSearch(t[9..]).NoMatch?
  {
    assert t[9..] == "2 1975 14:39";
    LiteralAbsent(lit, t[9..]);
  }

  /* ----- check ----- */

  method CheckFri(t: Text, fri: Regex, twelve: Regex)
    returns (a: Result<Value, Error>, pos: nat, m: Option<Text>, b: Result<Value, Error>,
             n: Option<Text>)
    requires Honest(fri) && Honest(twelve) && |t| == 21
    requires fri.reMatch(t) == Match([Register(0, 3)]) && twelve.reMatch(t).NoMatch?
    ensures a == Ok(Str(t[..3])) && pos == 0 && m == Some(t[..3]) && b == Ok(Nil) && n == None
  {
    var s := new Scanner(t, false);
    assert t[0..] == t;
    a := s.Check(fri);
    pos := s.Pos();
    m := s.Matched();
    b := s.Check(twelve);
    n := s.Matched();
  }

  /** check(/Fri/) is "Fri" and leaves pos 0 and matched "Fri"; check(/12/)
      is nil and leaves matched nil. */
  method CheckDate() returns (a: Result<Value, Error>, pos: nat, m: Option<Text>,
                              b: Result<Value, Error>, n: Option<Text>)
    ensures a == Ok(Str("Fri")) && pos == 0 && m == Some("Fri") && b == Ok(Nil) && n == None
  {
    var t: Text := "Fri Dec 12 1975 14:39";
    var fri: Text, twelve: Text := "Fri", "12";
    DateSlices(t);
    FriAtHead(t, fri);
    TwelveNotAtHead(t, twelve);
    a, pos, m, b, n := CheckFri(t, Literal(fri), Literal(twelve));
  }

  /* ----- scan_until ----- */

  method ScanUntilOne(t: Text, one: Regex, xyz: Regex)
    returns (a: Result<Value, Error>, pre: Option<Text>, b: Result<Value, Error>)
    requires Honest(one) && Honest(xyz) && |t| == 21
    requires one.reSearch(t) == Match([Register(8, 9)]) && xyz.reSearch(t[9..]).NoMatch?
    ensures a == Ok(Str(t[..9])) && pre == Some(t[..8]) && b == Ok(Nil)
  {
    var s := new Scanner(t, false);
    assert t[0..] == t;
    a := s.ScanUntil(one);
    pre := s.PreMatch();
    b := s.ScanUntil(xyz);
  }

  /** scan_until(/1/) is "Fri Dec 1" with pre_match "Fri Dec ";
      scan_until(/XYZ/) is nil. */
  method ScanUntilDate() returns (a: Result<Value, Error>, pre: Option<Text>, b: Result<Value, Error>)
    ensures a == Ok(Str("Fri Dec 1")) && pre == Some("Fri Dec ") && b == Ok(Nil)
  {
    var t: Text := "Fri Dec 12 1975 14:39";
    var one: Text, xyz: Text := "1", "XYZ";
    DateSlices(t);
    OneFound(t, one);
    XyzAbsent(t, xyz);
    a, pre, b := ScanUntilOne(t, Literal(one), Literal(xyz));
  }

  /* ----- skip_until and check_until ----- */

  method UntilTwelve(t: Text, twelve: Regex)
    returns (a: Result<Value, Error>, pos: nat, b: Result<Value, Error>, p: nat, m: Option<Text>)
    requires Honest(twelve) && |t| == 21
    requires twelve.reSearch(t) == Match([Register(8, 10)])
    ensures a == Ok(Int(10)) && pos == 10
    ensures b == Ok(Str(t[..10])) && p == 0 && m == Some(t[8..10])
  {
    var s := new Scanner(t, false);
    assert t[0..] == t;
    a := s.SkipUntil(twelve);
    pos := s.Pos();
    var u := new Scanner(t, false);
    b := u.CheckUntil(twelve);
    p := u.Pos();
    m := u.Matched();
  }

  /** skip_until(/12/) is 10 and moves the pointer there; on a fresh
      scanner check_until(/12/) is "Fri Dec 12", the pointer stays at 0 and
      matched is "12". */
  method UntilTwelveDate() returns (a: Result<Value, Error>, pos: nat, b: Result<Value, Error>,
                                    p: nat, m: Option<Text>)
    ensures a == Ok(Int(10)) && pos == 10
    ensures b == Ok(Str("Fri Dec 12")) && p == 0 && m == Some("12")
  {
    var t: Text := "Fri Dec 12 1975 14:39";
    var twelve: Text := "12";
    DateSlices(t);
    TwelveFound(t, twelve);
    a, pos, b, p, m := UntilTwelve(t, Literal(twelve));
  }

  /* ----- groups ----- */

  method ScanGroups(t: Text, groups: Regex)
    returns (a: Result<Value, Error>, g0: Option<Text>, g1: Option<Text>, g2: Option<Text>,
             g3: Option<Text>, g4: Option<Text>, post: Option<Text>, pre: Option<Text>)
    requires Honest(groups) && |t| == 21
    requires groups.reMatch(t) ==
      Match([Register(0, 11), Register(0, 3), Register(4, 7), Register(8, 10)])
    ensures a == Ok(Str(t[..11])) && g0 == Some(t[..11]) && g1 == Some(t[..3])
    ensures g2 == Some(t[4..7]) && g3 == Some(t[8..10]) && g4 == None
    ensures post == Some(t[11..]) && pre == Some([])
  {
    var s := new Scanner(t, false);
    assert t[0..] == t;
    a := s.Scan(groups);
    g0 := s.Aref(0);
    g1 := s.Aref(1);
    g2 := s.Aref(2);
    g3 := s.Aref(3);
    g4 := s.Aref(4);
    post := s.PostMatch();
    pre := s.PreMatch();
  }

  /** scan(/(\w+) (\w+) (\d+) /) is "Fri Dec 12 "; then [0] is the same,
      [1] "Fri", [2] "Dec", [3] "12", [4] nil, post_match "1975 14:39" and
      pre_match "". */
  method ScanGroupsDate()
    returns (a: Result<Value, Error>, g0: Option<Text>, g1: Option<Text>, g2: Option<Text>,
             g3: Option<Text>, g4: Option<Text>, post: Option<Text>, pre: Option<Text>)
    ensures a == Ok(Str("Fri Dec 12 ")) && g0 == Some("Fri Dec 12 ") && g1 == Some("Fri")
    ensures g2 == Some("Dec") && g3 == Some("12") && g4 == None
    ensures post == Some("1975 14:39") && pre == Some([])
  {
    var t: Text := "Fri Dec 12 1975 14:39";
    DateSlices(t);
    DateGroupsFound(t);
    Unfolded();
    a, g0, g1, g2, g3, g4, post, pre := ScanGroups(t, DateGroups);
  }

  /* ----- concat ----- */

  method Append(t: Text, u: Text) returns (r: Outcome<Error>, whole: Text)
    ensures r == Pass && whole == t + u
  {
    var s := new Scanner(t, false);
    r := s.Concat(u);
    whole := s.str;
  }

  /** s << " +1000 GMT" makes the string "Fri Dec 12 1975 14:39 +1000 GMT". */
  method AppendDate() returns (r: Outcome<Error>, whole: Text)
    ensures r == Pass && whole == "Fri Dec 12 1975 14:39 +1000 GMT"
  {
    r, whole := Append("Fri Dec 12 1975 14:39", " +1000 GMT");
  }
}
