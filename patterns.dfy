/** Concrete stand-ins for the regular expressions used in strscan.c's
    documentation (/\w+/, /\s+/, /./, /../, /1/, /(\w+) (\w+) (\d+) / ...).
    Each is an anchored matcher written out by hand; its searching entry
    point tries the anchored matcher at every start position in turn. They
    are what the documented scenarios are checked against, not a model of
    the regular-expression engine. */
module DocPatterns {
  import opened Bytes
  import opened Regex

  predicate IsWord(c: byte)
  {
    ('a' <= c <= 'z') || ('A' <= c <= 'Z') || ('0' <= c <= '9') || c == '_'
  }

  predicate IsSpace(c: byte)
  {
    c == ' ' || c == '\t' || c == '\n' || c == '\r' || c as int == 11 || c as int == 12
  }

  predicate IsDigit(c: byte)
  {
    '0' <= c <= '9'
  }

  /** `.`: any byte but a newline. */
  predicate NotNewline(c: byte)
  {
    c != NEWLINE
  }

  /** The end of the longest run of bytes of class cls that starts at i. */
  function RunEnd(t: Text, i: nat, cls: byte -> bool): (e: nat)
    requires i <= |t|
    ensures i <= e <= |t|
    ensures forall k | i <= k < e :: cls(t[k])
    ensures e == |t| || !cls(t[e])
    decreases |t| - i
  {
    if i < |t| && cls(t[i]) then RunEnd(t, i + 1, cls) else i
  }

  /** cls+ at the head of t, greedy. */
  function PlusAt(cls: byte -> bool, t: Text): (r: MatchResult)
    ensures Shaped(r, |t|, true)
    ensures r.Match? ==> r.regs == [Register(0, RunEnd(t, 0, cls))] && RunEnd(t, 0, cls) > 0
    ensures r.NoMatch? <==> t == [] || !cls(t[0])
  {
    var e := RunEnd(t, 0, cls);
    if e == 0 then NoMatch else Match([Register(0, e)])
  }

  /** A literal at the head of t. */
  function LiteralAt(lit: Text, t: Text): (r: MatchResult)
    ensures Shaped(r, |t|, true)
    ensures r.Match? <==> |lit| <= |t| && t[..|lit|] == lit
    ensures r.Match? ==> r.regs == [Register(0, |lit|)]
  {
    if |lit| <= |t| && t[..|lit|] == lit then Match([Register(0, |lit|)]) else NoMatch
  }

  /** k bytes of class cls at the head of t (`.` is k = 1, `..` is k = 2). */
  function RepeatAt(cls: byte -> bool, k: nat, t: Text): (r: MatchResult)
    ensures Shaped(r, |t|, true)
    ensures r.Match? <==> k <= |t| && RunEnd(t, 0, cls) >= k
  {
    if k <= |t| && RunEnd(t, 0, cls) >= k then Match([Register(0, k)]) else NoMatch
  }

  /** /(\w+) (\w+) (\d+) / at the head of t, with its three groups. Greedy
      runs need no backtracking here: neither class contains the space that
      must follow each run. */
  function DateGroupsAt(t: Text): (r: MatchResult)
    ensures Shaped(r, |t|, true)
    ensures r.Match? ==> |r.regs| == 4
  {
    var e1 := RunEnd(t, 0, IsWord);
    if e1 == 0 || e1 == |t| || t[e1] != ' ' then NoMatch
    else
      var e2 := RunEnd(t, e1 + 1, IsWord);
      if e2 == e1 + 1 || e2 == |t| || t[e2] != ' ' then NoMatch
      else
        var e3 := RunEnd(t, e2 + 1, IsDigit);
        if e3 == e2 + 1 || e3 == |t| || t[e3] != ' ' then NoMatch
        else Match([Register(0, e3 + 1), Register(0, e1), Register(e1 + 1, e2), Register(e2 + 1, e3)])
  }

  /** Registers moved by k; absent groups stay absent. */
  function Shift(regs: seq<Register>, k: nat): (s: seq<Register>)
    ensures |s| == |regs|
    ensures forall i | 0 <= i < |regs| ::
      s[i] == if regs[i].beg == ABSENT then regs[i] else Register(regs[i].beg + k, regs[i].end + k)
  {
    seq(|regs|, i requires 0 <= i < |regs| =>
      if regs[i].beg == ABSENT then regs[i] else Register(regs[i].beg + k, regs[i].end + k))
  }

  /** re_search built from an anchored matcher: the first start position,
      from `from` up to and including |t|, at which m matches, with the
      registers made relative to the start of t. */
  function SearchFrom(m: Text -> MatchResult, t: Text, from: nat): (r: MatchResult)
    requires from <= |t|
    requires forall u: Text {:trigger m(u)} :: Shaped(m(u), |u|, true)
    ensures Shaped(r, |t|, false)
    ensures r.Match? ==> from <= r.regs[0].beg
    decreases |t| - from
  {
    var answer := m(t[from..]);
    assert Shaped(answer, |t| - from, true);
    match answer
    case Match(regs) => Match(Shift(regs, from))
    case Overflow => Overflow
    case NoMatch => if from == |t| then NoMatch else SearchFrom(m, t, from + 1)
  }

  /** A pattern given by its anchored matcher. */
  function Anchored(m: Text -> MatchResult): (re: Regex)
    requires forall u: Text {:trigger m(u)} :: Shaped(m(u), |u|, true)
    ensures Honest(re)
  {
    Regex(m, t => SearchFrom(m, t, 0))
  }

  function WordAt(t: Text): MatchResult { PlusAt(IsWord, t) }
  function SpacesAt(t: Text): MatchResult { PlusAt(IsSpace, t) }
  function DigitsAt(t: Text): MatchResult { PlusAt(IsDigit, t) }
  function AnyByteAt(t: Text): MatchResult { RepeatAt(NotNewline, 1, t) }
  function TwoBytesAt(t: Text): MatchResult { RepeatAt(NotNewline, 2, t) }

  /** /\w+/, /\s+/, /\d+/, /./, /../ and /(\w+) (\w+) (\d+) /. */
  const Word: Regex := Anchored(WordAt)
  const Spaces: Regex := Anchored(SpacesAt)
  const Digits: Regex := Anchored(DigitsAt)
  const AnyByte: Regex := Anchored(AnyByteAt)
  const TwoBytes: Regex := Anchored(TwoBytesAt)
  const DateGroups: Regex := Anchored(DateGroupsAt)

  /** The stand-ins' anchored entry points are the matchers they are built
      from. */
  lemma Unfolded()
    ensures Word.reMatch == WordAt && Spaces.reMatch == SpacesAt && Digits.reMatch == DigitsAt
    ensures AnyByte.reMatch == AnyByteAt && TwoBytes.reMatch == TwoBytesAt
    ensures DateGroups.reMatch == DateGroupsAt
  {
  }

  function Literal(lit: Text): (re: Regex)
    ensures Honest(re)
  {
    Anchored(t => LiteralAt(lit, t))
  }

  /** A search passes over every start position at which the anchored
      matcher fails. */
  lemma {:induction false} SearchSkips(m: Text -> MatchResult, t: Text, from: nat, to: nat)
    requires forall u: Text {:trigger m(u)} :: Shaped(m(u), |u|, true)
    requires from <= to <= |t|
    requires forall i | from <= i < to :: m(t[i..]).NoMatch?
    ensures SearchFrom(m, t, from) == SearchFrom(m, t, to)
    decreases (to as int) - (from as int)
  {
    if from < to {
      SearchSkips(m, t, from + 1, to);
    }
  }

  /** Searching for a literal skips every position before `at` when its
      first byte does not occur there. */
  lemma LiteralSearchSkips(lit: Text, t: Text, at: nat)
    requires |lit| >= 1 && at <= |t|
    requires lit[0] !in t[..at]
    ensures Literal(lit).reSearch(t) == SearchFrom(Literal(lit).reMatch, t, at)
  {
    var m := Literal(lit).reMatch;
    forall i | 0 <= i < at
      ensures m(t[i..]).NoMatch?
    {
      assert t[i] in t[..at];
    }
    SearchSkips(m, t, 0, at);
  }

  /** A literal is found where it first occurs, its first byte absent before. */
  lemma LiteralFoundAt(lit: Text, t: Text, at: nat)
    requires |lit| >= 1 && at + |lit| <= |t|
    requires lit[0] !in t[..at] && t[at..at + |lit|] == lit
    ensures Literal(lit).reSearch(t) == Match([Register(at, at + |lit|)])
  {
    LiteralSearchSkips(lit, t, at);
    assert t[at..][..|lit|] == lit;
    var regs := [Register(0, |lit|)];
    assert Literal(lit).reMatch(t[at..]) == Match(regs);
    assert Shift(regs, at) == [Register(at, at + |lit|)];
  }

  /** A literal whose first byte never occurs is not found. */
  lemma LiteralAbsent(lit: Text, t: Text)
    requires |lit| >= 1 && lit[0] !in t
    ensures Literal(lit).reSearch(t).NoMatch?
  {
    assert t[..|t|] == t;
    LiteralSearchSkips(lit, t, |t|);
  }
}
