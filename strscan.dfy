/** StringScanner: a scan pointer over one string, the outcome of the most
    recent match attempt, and the operations that move the pointer and read
    that outcome. */
module StrScan {
  import opened Wrappers
  import opened Bytes
  import opened Regex

  /** The exceptions the scanner raises: ScanError (its own class),
      RangeError from pos=, the host's ArgumentError, and the TypeError the
      host of this source's era raises for a change to a frozen string. */
  datatype Error =
    | ScanError(msg: Message)
    | RangeError(msg: Message)
    | ArgumentError(msg: Message)
    | TypeError(msg: Message)

  /** The messages those exceptions carry; Text() is the message string
      each one raises with. */
  datatype Message = NegativeSize | IndexOutOfRange | BufferOverflow | CannotUnscan | FrozenString
  {
    function Text(): (t: string)
      ensures |t| > 0
    {
      match this
      case FrozenString => "can't modify frozen string"
      case NegativeSize => "negative string size (or size too big)"
      case IndexOutOfRange => "index out of range"
      case BufferOverflow => "regexp buffer overflow"
      case CannotUnscan => "cannot unscan: prev match had failed"
    }
  }

  /** Every message value stands for its own text: no two raise the same
      message. */
  lemma MessageTextsDistinct(a: Message, b: Message)
    requires a != b
    ensures a.Text() != b.Text()
  {
  }

  /** What the matching dispatch hands back: nil, a String or an Integer. */
  datatype Value = Nil | Str(text: Text) | Int(n: int)

  /** FLAG_MATCHED together with the fields that are legal only while it is
      set: the previous scan pointer and the register table. */
  datatype MatchState = Unmatched | Succeeded(prev: nat, regs: seq<Register>)

  /** A set flag describes a match that started at prev inside a string of
      n bytes: the registers are shaped as an engine answer over the n - prev
      bytes from prev on. */
  predicate MatchFits(m: MatchState, n: int)
  {
    m.Succeeded? ==> m.prev <= n && Shaped(Match(m.regs), n - m.prev, false)
  }

  /* ---------------------------------------------------------------------
     Extraction: every String the scanner returns is a fresh copy made here.
     --------------------------------------------------------------------- */

  /** rb_str_new(ptr + beg, len): a copy of len bytes, or the host's
      ArgumentError for a negative length. */
  function NewString(str: Text, beg: nat, len: int): (r: Result<Text, Error>)
    requires beg + len <= |str|
    ensures r.Ok? <==> len >= 0
    ensures r.Ok? ==> |r.value| == len && r.value == str[beg..beg + len]
    ensures len < 0 ==> r == Err(ArgumentError(NegativeSize))
  {
    if len < 0 then Err(ArgumentError(NegativeSize))
    else Ok(str[beg..beg + len])
  }

  /** extract_range: nil when beg lies past the end of the string, otherwise
      the bytes [beg, end) with end clamped to the string's length. */
  function ExtractRange(str: Text, beg: nat, end: int): (r: Result<Option<Text>, Error>)
    ensures r == Ok(None) <==> beg > |str|
    ensures beg <= |str| && beg <= end ==> r == Ok(Some(str[beg..Min(end, |str|)]))
    ensures beg <= |str| && end < beg ==> r.Err?
  {
    if beg > |str| then Ok(None)
    else
      var e := if end > |str| then |str| else end;
      match NewString(str, beg, e - beg)
      case Ok(t) => Ok(Some(t))
      case Err(x) => Err(x)
  }

  /** extract_beg_len: the same rule with a length instead of an end. */
  function ExtractBegLen(str: Text, beg: nat, len: int): (r: Result<Option<Text>, Error>)
    ensures r == Ok(None) <==> beg > |str|
    ensures beg <= |str| && len >= 0 ==> r == Ok(Some(str[beg..beg + Min(len, |str| - beg)]))
    ensures beg <= |str| && len < 0 ==> r.Err?
  {
    if beg > |str| then Ok(None)
    else
      var l := if beg + len > |str| then |str| - beg else len;
      match NewString(str, beg, l)
      case Ok(t) => Ok(Some(t))
      case Err(x) => Err(x)
  }

  /** The two extraction helpers agree: a length is an end offset from beg. */
  lemma ExtractBegLenIsRange(str: Text, beg: nat, len: int)
    ensures ExtractBegLen(str, beg, len) == ExtractRange(str, beg, beg + len)
  {
    if beg <= |str| && len < 0 {
      assert NewString(str, beg, len) == NewString(str, beg, beg + len - beg);
    }
  }

  /* ---------------------------------------------------------------------
     The matching dispatch, as a function of the state before it.
     --------------------------------------------------------------------- */

  /** A dispatch's answer and the pointer and match data it leaves. */
  datatype Step = Step(result: Result<Value, Error>, curr: nat, state: MatchState)

  /** What strscan_do_scan computes from the string and the pointer, for an
      engine that keeps to its shape: at the end of the string nil, without
      asking the engine; a failed match nil and an engine overflow a
      ScanError, both with the pointer where it was and the flag clear; a
      match sets the flag with the old pointer as prev and the engine's
      registers, moves the pointer to the end of the match iff succptr, and
      answers the bytes from the old pointer to the end of the match iff
      getstr, or else their number. */
  function Dispatch(str: Text, curr: nat, re: Regex, succptr: bool, getstr: bool, headonly: bool)
    : (s: Step)
    requires curr <= |str| && Honest(re)
    ensures s.curr <= |str| && MatchFits(s.state, |str|)
    ensures s.state.Succeeded? ==> s.state.prev == curr
    ensures s.curr != curr ==> succptr && s.state.Succeeded?
    ensures s.result.Err? ==> s.result == Err(ScanError(BufferOverflow)) && s.state.Unmatched?
  {
    if curr >= |str| then Step(Ok(Nil), curr, Unmatched)
    else
      var rest := str[curr..];
      var answer := Consult(re, rest, headonly);
      assert Shaped(answer, |rest|, headonly);
      match answer
      case NoMatch => Step(Ok(Nil), curr, Unmatched)
      case Overflow => Step(Err(ScanError(BufferOverflow)), curr, Unmatched)
      case Match(regs) =>
        var end := regs[0].end;
        Step(Ok(if getstr then Str(str[curr..curr + end]) else Int(end)),
             if succptr then curr + end else curr,
             Succeeded(curr, regs))
  }

  /** A dispatch leaves the flag set exactly when it answers something
      other than nil and other than an error. */
  lemma DispatchMatchedIffAnswer(str: Text, curr: nat, re: Regex, succptr: bool, getstr: bool,
                                 headonly: bool)
    requires curr <= |str| && Honest(re)
    ensures var s := Dispatch(str, curr, re, succptr, getstr, headonly);
      s.state.Succeeded? <==> s.result.Ok? && s.result.value != Nil
  {
  }

  /** Advancing or not changes only the pointer: the answer and the match
      data are the same (so check is scan without the move, and so on). */
  lemma DispatchAdvanceOnlyMovesPointer(str: Text, curr: nat, re: Regex, getstr: bool,
                                        headonly: bool)
    requires curr <= |str| && Honest(re)
    ensures var moved := Dispatch(str, curr, re, true, getstr, headonly);
      var stayed := Dispatch(str, curr, re, false, getstr, headonly);
      moved.result == stayed.result && moved.state == stayed.state && stayed.curr == curr
  {
  }

  /** The number a dispatch answers without getstr is the length of the
      string it answers with getstr. */
  lemma DispatchNumberIsLength(str: Text, curr: nat, re: Regex, succptr: bool, headonly: bool)
    requires curr <= |str| && Honest(re)
    ensures var n := Dispatch(str, curr, re, succptr, false, headonly).result;
      var t := Dispatch(str, curr, re, succptr, true, headonly).result;
      (n.Ok? && n.value.Int?) <==> (t.Ok? && t.value.Str?)
    ensures var n := Dispatch(str, curr, re, succptr, false, headonly).result;
      var t := Dispatch(str, curr, re, succptr, true, headonly).result;
      n.Ok? && n.value.Int? ==> n.value.n == |t.value.text|
  {
  }

  /** What scan and scan_until answer is exactly what the pointer passed
      over: the old rest is that string followed by the new rest. */
  lemma DispatchConsumesAnswer(str: Text, curr: nat, re: Regex, headonly: bool)
    requires curr <= |str| && Honest(re)
    ensures var s := Dispatch(str, curr, re, true, true, headonly);
      s.result.Ok? && s.result.value.Str? ==>
        curr <= s.curr && str[curr..] == s.result.value.text + str[s.curr..]
  {
    var s := Dispatch(str, curr, re, true, true, headonly);
    if s.result.Ok? && s.result.value.Str? {
      assert str[curr..] == str[curr..s.curr] + str[s.curr..];
    }
  }

  /** At the end of the string a dispatch answers nil with the flag clear,
      whatever the engine would have said: it is never consulted. */
  lemma DispatchAtEndIgnoresEngine(str: Text, re: Regex, other: Regex, succptr: bool, getstr: bool,
                                   headonly: bool)
    requires Honest(re) && Honest(other)
    ensures Dispatch(str, |str|, re, succptr, getstr, headonly) == Step(Ok(Nil), |str|, Unmatched)
    ensures Dispatch(str, |str|, re, succptr, getstr, headonly)
         == Dispatch(str, |str|, other, succptr, getstr, headonly)
  {
  }

  /** Before the end of the string a dispatch follows the engine's answer on
      the bytes from the pointer: no match is nil and an overflow is
      ScanError, both with the pointer kept and the flag clear; a match sets
      the flag with the engine's own registers, moves the pointer by end[0]
      exactly when succptr, and answers the first end[0] bytes of the rest
      (getstr) or their number. */
  lemma DispatchFollowsEngine(str: Text, curr: nat, re: Regex, succptr: bool, getstr: bool,
                              headonly: bool)
    requires curr < |str| && Honest(re)
    ensures var s := Dispatch(str, curr, re, succptr, getstr, headonly);
      Consult(re, str[curr..], headonly).NoMatch? ==> s == Step(Ok(Nil), curr, Unmatched)
    ensures var s := Dispatch(str, curr, re, succptr, getstr, headonly);
      Consult(re, str[curr..], headonly).Overflow? ==>
        s == Step(Err(ScanError(BufferOverflow)), curr, Unmatched)
    ensures var s := Dispatch(str, curr, re, succptr, getstr, headonly);
      var a := Consult(re, str[curr..], headonly);
      a.Match? ==>
        && s.state == Succeeded(curr, a.regs)
        && s.curr == (if succptr then curr + a.regs[0].end else curr)
        && s.result == Ok(if getstr then Str(str[curr..][..a.regs[0].end]) else Int(a.regs[0].end))
  {
    var a := Consult(re, str[curr..], headonly);
    if a.Match? {
      assert str[curr..][..a.regs[0].end] == str[curr..curr + a.regs[0].end];
    }
  }

  /** What a dispatch with getstr answers, read against the registers it
      leaves: the bytes a search skipped before register 0, followed by the
      bytes of register 0 itself; an anchored dispatch skips nothing, so it
      answers exactly register 0's bytes. */
  lemma DispatchTextCoversMatch(str: Text, curr: nat, re: Regex, succptr: bool, headonly: bool)
    requires curr <= |str| && Honest(re)
    ensures var s := Dispatch(str, curr, re, succptr, true, headonly);
      s.result.Ok? && s.result.value.Str? ==>
        s.state.Succeeded? &&
        var g := s.state.regs[0];
        s.result.value.text == str[curr..curr + g.beg] + str[curr + g.beg..curr + g.end]
    ensures var s := Dispatch(str, curr, re, succptr, true, headonly);
      headonly && s.result.Ok? && s.result.value.Str? ==>
        s.state.Succeeded? && s.state.regs[0].beg == 0 &&
        s.result.value.text == str[curr..curr + s.state.regs[0].end]
  {
    var s := Dispatch(str, curr, re, succptr, true, headonly);
    if s.result.Ok? && s.result.value.Str? {
      DispatchFollowsEngine(str, curr, re, succptr, true, headonly);
      var a := Consult(re, str[curr..], headonly);
      assert a.Match? && s.state.regs == a.regs;
      var g := a.regs[0];
      assert 0 <= g.beg <= g.end <= |str| - curr && (headonly ==> g.beg == 0);
      assert s.result.value.text == str[curr..curr + g.end];
      assert str[curr..curr + g.end] == str[curr..curr + g.beg] + str[curr + g.beg..curr + g.end];
    }
  }

  /* ---------------------------------------------------------------------
     The scanner object.
     --------------------------------------------------------------------- */

  class Scanner {
    /** The string being scanned. */
    var str: Text
    /** The scan pointer: an offset between two bytes, always legal. */
    var curr: nat
    /** The match flag, with the previous pointer and registers it makes legal. */
    var state: MatchState
    /** Whether the string object is frozen: string= stores a frozen copy,
        initialize the caller's own object as it is. */
    var frozen: bool

    /** The pointer stays inside the string, and a set flag describes a
        match inside the string. */
    ghost predicate Valid()
      reads this
    {
      curr <= |str| && MatchFits(state, |str|)
    }

    /** StringScanner.new(string): allocation zeroes the pointer and clears
        the flag, initialize stores the string object itself, frozen exactly
        when the caller's string is (isFrozen). */
    constructor (s: Text, isFrozen: bool)
      ensures Valid()
      ensures str == s && curr == 0 && state == Unmatched && frozen == isFrozen
    {
      str, curr, state, frozen := s, 0, Unmatched, isFrozen;
    }

    /* ----- position control ----- */

    /** pos / pointer: the scan pointer, 0 at the start and the length of the
        string once it is exhausted. */
    function Pos(): (p: nat)
      reads this
      requires Valid()
      ensures p <= |str|
    {
      curr
    }

    /** reset: back to the start, matching data cleared. */
    method Reset()
      requires Valid()
      modifies this
      ensures frozen == old(frozen)
      ensures Valid()
      ensures str == old(str) && curr == 0 && state == Unmatched
    {
      curr := 0;
      state := Unmatched;
    }

    /** terminate / clear: to the end of the string, matching data cleared. */
    method Terminate()
      requires Valid()
      modifies this
      ensures frozen == old(frozen)
      ensures Valid()
      ensures str == old(str) && curr == |str| && state == Unmatched
    {
      curr := |str|;
      state := Unmatched;
    }

    /** string=: scan a frozen copy of a new string from its start; the
        argument is returned. */
    method SetString(s: Text) returns (r: Text)
      requires Valid()
      modifies this
      ensures Valid()
      ensures str == s && curr == 0 && state == Unmatched && frozen
      ensures r == s
    {
      r := s;
      str := s;
      frozen := true;
      curr := 0;
      state := Unmatched;
    }

    /** concat / <<: append to the string; the pointer and the matching data
        stay as they are. Appending to a frozen string fails in the host and
        changes nothing. */
    method Concat(s: Text) returns (r: Outcome<Error>)
      requires Valid()
      modifies this
      ensures Valid()
      ensures curr == old(curr) && state == old(state) && frozen == old(frozen)
      ensures !frozen ==> r == Pass && str == old(str) + s
      ensures frozen ==> r == Fail(TypeError(FrozenString)) && str == old(str)
    {
      if frozen {
        return Fail(TypeError(FrozenString));
      }
      str := str + s;
      r := Pass;
    }

    /** pos=: a negative index counts from the end; an index still negative
        or past the end raises RangeError and leaves the pointer alone. The
        match flag and registers are never touched. */
    method SetPos(i: int) returns (r: Result<int, Error>)
      requires Valid()
      modifies this
      ensures frozen == old(frozen)
      ensures Valid()
      ensures str == old(str) && state == old(state)
      ensures var j := if i < 0 then i + |str| else i;
        if 0 <= j <= |str| then r == Ok(j) && curr == j
        else r == Err(RangeError(IndexOutOfRange)) && curr == old(curr)
    {
      var j := i;
      if j < 0 {
        j := j + |str|;
      }
      if j < 0 {
        return Err(RangeError(IndexOutOfRange));
      }
      if j > |str| {
        return Err(RangeError(IndexOutOfRange));
      }
      curr := j;
      r := Ok(j);
    }

    /* ----- the matching dispatch ----- */

    /** strscan_do_scan(regex, succptr, getstr, headonly). */
    method DoScan(re: Regex, succptr: bool, getstr: bool, headonly: bool)
      returns (r: Result<Value, Error>)
      requires Valid() && Honest(re)
      modifies this
      ensures frozen == old(frozen)
      ensures Valid() && str == old(str)
      ensures Step(r, curr, state) == Dispatch(old(str), old(curr), re, succptr, getstr, headonly)
    {
      ghost var expected := Dispatch(str, curr, re, succptr, getstr, headonly);
      state := Unmatched;
      if curr >= |str| {
        assert expected == Step(Ok(Nil), curr, Unmatched);
        return Ok(Nil);
      }
      var rest := str[curr..];
      var ret := Consult(re, rest, headonly);
      assert Shaped(ret, |rest|, headonly) && |rest| == |str| - curr;
      if ret.Overflow? {
        assert expected == Step(Err(ScanError(BufferOverflow)), curr, Unmatched);
        return Err(ScanError(BufferOverflow));
      }
      if ret.NoMatch? {
        assert expected == Step(Ok(Nil), curr, Unmatched);
        return Ok(Nil);
      }
      var prev := curr;
      var end := ret.regs[0].end;
      assert prev + end <= |str|;
      assert expected == Step(Ok(if getstr then Str(str[prev..prev + end]) else Int(end)),
                              if succptr then prev + end else prev, Succeeded(prev, ret.regs));
      state := Succeeded(prev, ret.regs);
      if succptr {
        curr := prev + end;
      }
      if getstr {
        var x := ExtractBegLen(str, prev, end);
        assert x == Ok(Some(str[prev..prev + end]));
        r := Ok(Str(x.value.value));
      } else {
        r := Ok(Int(end));
      }
    }


    /** scan: anchored, advances, returns the matched string. */
    method Scan(re: Regex) returns (r: Result<Value, Error>)
      requires Valid() && Honest(re)
      modifies this
      ensures frozen == old(frozen)
      ensures Valid() && str == old(str)
      ensures Step(r, curr, state) == Dispatch(old(str), old(curr), re, true, true, true)
    {
      r := DoScan(re, true, true, true);
    }

    /** match?: anchored, stays, returns the match length. */
    method MatchP(re: Regex) returns (r: Result<Value, Error>)
      requires Valid() && Honest(re)
      modifies this
      ensures frozen == old(frozen)
      ensures Valid() && str == old(str)
      ensures Step(r, curr, state) == Dispatch(old(str), old(curr), re, false, false, true)
    {
      r := DoScan(re, false, false, true);
    }

    /** skip: anchored, advances, returns the match length. */
    method Skip(re: Regex) returns (r: Result<Value, Error>)
      requires Valid() && Honest(re)
      modifies this
      ensures frozen == old(frozen)
      ensures Valid() && str == old(str)
      ensures Step(r, curr, state) == Dispatch(old(str), old(curr), re, true, false, true)
    {
      r := DoScan(re, true, false, true);
    }

    /** check: anchored, stays, returns the matched string. */
    method Check(re: Regex) returns (r: Result<Value, Error>)
      requires Valid() && Honest(re)
      modifies this
      ensures frozen == old(frozen)
      ensures Valid() && str == old(str)
      ensures Step(r, curr, state) == Dispatch(old(str), old(curr), re, false, true, true)
    {
      r := DoScan(re, false, true, true);
    }

    /** scan_full(pattern, advance, return_string): anchored, the caller picks. */
    method ScanFull(re: Regex, s: bool, f: bool) returns (r: Result<Value, Error>)
      requires Valid() && Honest(re)
      modifies this
      ensures frozen == old(frozen)
      ensures Valid() && str == old(str)
      ensures Step(r, curr, state) == Dispatch(old(str), old(curr), re, s, f, true)
    {
      r := DoScan(re, s, f, true);
    }

    /** scan_until: searches, advances, returns the string up to the end of the match. */
    method ScanUntil(re: Regex) returns (r: Result<Value, Error>)
      requires Valid() && Honest(re)
      modifies this
      ensures frozen == old(frozen)
      ensures Valid() && str == old(str)
      ensures Step(r, curr, state) == Dispatch(old(str), old(curr), re, true, true, false)
    {
      r := DoScan(re, true, true, false);
    }

    /** exist?: searches, stays, returns the distance to the end of the match. */
    method ExistP(re: Regex) returns (r: Result<Value, Error>)
      requires Valid() && Honest(re)
      modifies this
      ensures frozen == old(frozen)
      ensures Valid() && str == old(str)
      ensures Step(r, curr, state) == Dispatch(old(str), old(curr), re, false, false, false)
    {
      r := DoScan(re, false, false, false);
    }

    /** skip_until: searches, advances, returns the number of bytes advanced. */
    method SkipUntil(re: Regex) returns (r: Result<Value, Error>)
      requires Valid() && Honest(re)
      modifies this
      ensures frozen == old(frozen)
      ensures Valid() && str == old(str)
      ensures Step(r, curr, state) == Dispatch(old(str), old(curr), re, true, false, false)
    {
      r := DoScan(re, true, false, false);
    }

    /** check_until: searches, stays, returns the string up to the end of the match. */
    method CheckUntil(re: Regex) returns (r: Result<Value, Error>)
      requires Valid() && Honest(re)
      modifies this
      ensures frozen == old(frozen)
      ensures Valid() && str == old(str)
      ensures Step(r, curr, state) == Dispatch(old(str), old(curr), re, false, true, false)
    {
      r := DoScan(re, false, true, false);
    }

    /** search_full(pattern, advance, return_string): searches, the caller picks. */
    method SearchFull(re: Regex, s: bool, f: bool) returns (r: Result<Value, Error>)
      requires Valid() && Honest(re)
      modifies this
      ensures frozen == old(frozen)
      ensures Valid() && str == old(str)
      ensures Step(r, curr, state) == Dispatch(old(str), old(curr), re, s, f, false)
    {
      r := DoScan(re, s, f, false);
    }

    /* ----- stepping without the engine ----- */

    /** adjust_registers_to_matched: a one-register table covering what the
        pointer just stepped over. */
    method AdjustRegistersToMatched()
      requires state.Succeeded? && state.prev <= curr <= |str|
      modifies this
      ensures frozen == old(frozen)
      ensures Valid()
      ensures str == old(str) && curr == old(curr)
      ensures state == Succeeded(old(state).prev, [Register(0, curr - old(state).prev)])
    {
      state := Succeeded(state.prev, [Register(0, curr - state.prev)]);
    }

    /** getch: one character, whose byte length mbclen gives from its first
        byte, clamped to what is left of the string. */
    method Getch(mbclen: byte -> int) returns (r: Option<Text>)
      requires Valid()
      requires forall c: byte :: mbclen(c) >= 1
      modifies this
      ensures frozen == old(frozen)
      ensures Valid() && str == old(str)
      ensures old(curr) >= |str| ==> r == None && curr == old(curr) && state == Unmatched
      ensures old(curr) < |str| ==>
        && curr == old(curr) + Min(mbclen(str[old(curr)]), |str| - old(curr))
        && state == Succeeded(old(curr), [Register(0, curr - old(curr))])
        && r == Some(str[old(curr)..curr])
      ensures r.Some? ==> r == Matched() && MatchedSize() == Some(|r.value|)
    {
      state := Unmatched;
      if curr >= |str| {
        return None;
      }
      var len := mbclen(str[curr]);
      if curr + len > |str| {
        len := |str| - curr;
      }
      var prev := curr;
      curr := curr + len;
      state := Succeeded(prev, []);  // the flag is set; the registers follow
      AdjustRegistersToMatched();
      r := ExtractRange(str, prev + state.regs[0].beg, prev + state.regs[0].end).value;
    }

    /** get_byte / getbyte: exactly one byte, whatever the encoding. */
    method GetByte() returns (r: Option<Text>)
      requires Valid()
      modifies this
      ensures frozen == old(frozen)
      ensures Valid() && str == old(str)
      ensures old(curr) >= |str| ==> r == None && curr == old(curr) && state == Unmatched
      ensures old(curr) < |str| ==>
        && curr == old(curr) + 1
        && state == Succeeded(old(curr), [Register(0, 1)])
        && r == Some([str[old(curr)]])
      ensures r.Some? ==> r == Matched() && MatchedSize() == Some(1)
    {
      state := Unmatched;
      if curr >= |str| {
        return None;
      }
      var prev := curr;
      curr := curr + 1;
      state := Succeeded(prev, []);  // the flag is set; the registers follow
      AdjustRegistersToMatched();
      r := ExtractRange(str, prev + state.regs[0].beg, prev + state.regs[0].end).value;
      assert str[prev..prev + 1] == [str[prev]];
    }

    /** unscan: back to where the pointer was before the last successful
        match; only one position is remembered, so the flag is cleared. */
    method Unscan() returns (r: Outcome<Error>)
      requires Valid()
      modifies this
      ensures frozen == old(frozen)
      ensures Valid() && str == old(str) && state == Unmatched
      ensures old(state).Unmatched? ==>
        r == Fail(ScanError(CannotUnscan)) && curr == old(curr)
      ensures old(state).Succeeded? ==> r == Pass && curr == old(state).prev
    {
      if state.Unmatched? {
        return Fail(ScanError(CannotUnscan));
      }
      curr := state.prev;
      state := Unmatched;
      r := Pass;
    }

    /* ----- looking ahead ----- */

    /** peek(len): up to len bytes from the pointer, without moving it; ""
        at the end of the string. A negative len off the end of the string
        reaches the host's negative-size check. */
    function Peek(n: int): (r: Result<Text, Error>)
      reads this
      requires Valid()
      ensures n >= 0 ==> r == Ok(str[curr..curr + Min(n, |str| - curr)])
      ensures n < 0 ==> (r.Err? <==> curr < |str|) && (r.Ok? ==> r.value == [])
      ensures r.Ok? ==> |r.value| <= |str| - curr
    {
      if curr >= |str| then assert str[curr..curr] == []; Ok([])
      else
        var len := if curr + n > |str| then |str| - curr else n;
        var x := ExtractBegLen(str, curr, len);
        if x.Ok? then Ok(x.value.value) else Err(x.error)
    }

    /** rest: everything after the pointer ("" at the end). */
    function Rest(): (r: Text)
      reads this
      requires Valid()
      ensures str[..curr] + r == str
    {
      if curr >= |str| then []
      else ExtractRange(str, curr, |str|).value.value
    }

    /** rest_size: the number of bytes after the pointer. */
    function RestSize(): (r: int)
      reads this
      requires Valid()
      ensures r == |Rest()| && r == |str| - curr
    {
      if curr >= |str| then 0 else |str| - curr
    }

    /* ----- where the pointer is ----- */

    /** eos? / empty?: nothing is left to scan. */
    function EosP(): (r: bool)
      reads this
      requires Valid()
      ensures r <==> Rest() == []
      ensures r <==> curr == |str|
    {
      curr >= |str|
    }

    /** rest?: something is left to scan. */
    function RestP(): (r: bool)
      reads this
      requires Valid()
      ensures r == !EosP()
      ensures r <==> RestSize() > 0
    {
      if curr >= |str| then false else true
    }

    /** bol? / beginning_of_line?: nil past the end of the string, true at
        its start or just after a newline. */
    function BolP(): (r: Option<bool>)
      reads this
      ensures r.None? <==> curr > |str|
      ensures r == Some(true) <==> curr == 0 || (0 < curr <= |str| && str[curr - 1] == NEWLINE)
      ensures Valid() ==> r.Some?
    {
      if curr > |str| then None
      else if curr == 0 then Some(true)
      else Some(str[curr - 1] == NEWLINE)
    }

    /* ----- the most recent match ----- */

    /** matched?: the last attempt succeeded. */
    function MatchedP(): (r: bool)
      reads this
      requires Valid()
      ensures r <==> Matched().Some?
    {
      state.Succeeded?
    }

    /** matched: the bytes register 0 covers; nil without a match. */
    function Matched(): (r: Option<Text>)
      reads this
      requires Valid()
      ensures r.Some? <==> state.Succeeded?
      ensures r.Some? ==>
        r.value == str[state.prev + state.regs[0].beg..state.prev + state.regs[0].end]
    {
      if state.Unmatched? then None
      else ExtractRange(str, state.prev + state.regs[0].beg, state.prev + state.regs[0].end).value
    }

    /** matched_size / matchedsize: the length of register 0; nil without a match. */
    function MatchedSize(): (r: Option<int>)
      reads this
      requires Valid()
      ensures r.Some? <==> state.Succeeded?
      ensures r.Some? ==> r.value == |Matched().value|
    {
      if state.Unmatched? then None
      else Some(state.regs[0].end - state.regs[0].beg)
    }

    /** [](n): group n of the last match; a negative n counts back from the
        number of registers; an index out of range or an absent group is nil. */
    function Aref(idx: int): (r: Option<Text>)
      reads this
      requires Valid()
      ensures state.Unmatched? ==> r == None
      ensures state.Succeeded? ==>
        var i := if idx < 0 then idx + |state.regs| else idx;
        && (r.Some? <==> 0 <= i < |state.regs| && state.regs[i].beg != ABSENT)
        && (r.Some? ==> r.value == str[state.prev + state.regs[i].beg..state.prev + state.regs[i].end])
      ensures idx == 0 ==> r == Matched()
    {
      if state.Unmatched? then None
      else
        var i := if idx < 0 then idx + |state.regs| else idx;
        if i < 0 then None
        else if i >= |state.regs| then None
        else if state.regs[i].beg == ABSENT then None
        else ExtractRange(str, state.prev + state.regs[i].beg, state.prev + state.regs[i].end).value
    }

    /** pre_match: the string before the match; nil without a match. */
    function PreMatch(): (r: Option<Text>)
      reads this
      requires Valid()
      ensures r.Some? <==> state.Succeeded?
      ensures r.Some? ==> r.value == str[..state.prev + state.regs[0].beg]
    {
      if state.Unmatched? then None
      else ExtractRange(str, 0, state.prev + state.regs[0].beg).value
    }

    /** post_match: the string after the match; nil without a match. */
    function PostMatch(): (r: Option<Text>)
      reads this
      requires Valid()
      ensures r.Some? <==> state.Succeeded?
      ensures r.Some? ==> r.value == str[state.prev + state.regs[0].end..]
    {
      if state.Unmatched? then None
      else ExtractRange(str, state.prev + state.regs[0].end, |str|).value
    }
  }

  /** While matched, pre_match, matched and post_match split the string. */
  lemma MatchSplitsString(s: Scanner)
    requires s.Valid() && s.MatchedP()
    ensures s.PreMatch().value + s.Matched().value + s.PostMatch().value == s.str
  {
    var b := s.state.prev + s.state.regs[0].beg;
    var e := s.state.prev + s.state.regs[0].end;
    assert s.str[..b] + s.str[b..e] == s.str[..e];
    assert s.str[..e] + s.str[e..] == s.str;
  }

  /** Read through the scanner it leaves behind, a dispatch's string is the
      gap a search skipped followed by `matched`, and for an anchored
      dispatch it is `matched` itself. */
  lemma DispatchAnswerEndsInMatched(s: Scanner, curr: nat, re: Regex, succptr: bool, headonly: bool)
    requires s.Valid() && Honest(re) && curr <= |s.str|
    requires s.state == Dispatch(s.str, curr, re, succptr, true, headonly).state
    ensures var d := Dispatch(s.str, curr, re, succptr, true, headonly);
      d.result.Ok? && d.result.value.Str? ==>
        s.MatchedP() && d.result.value.text == s.str[curr..s.state.prev + s.state.regs[0].beg] + s.Matched().value
    ensures var d := Dispatch(s.str, curr, re, succptr, true, headonly);
      headonly && d.result.Ok? && d.result.value.Str? ==> d.result.value.text == s.Matched().value
  {
    DispatchTextCoversMatch(s.str, curr, re, succptr, headonly);
  }

  /** string= stores a frozen copy, so appending after it always fails and
      leaves the new string as it was. */
  method ConcatAfterSetString(s: Scanner, u: Text, v: Text) returns (r: Outcome<Error>)
    requires s.Valid()
    modifies s
    ensures s.Valid() && s.str == u && s.curr == 0 && s.state == Unmatched
    ensures r == Fail(TypeError(FrozenString))
  {
    var _ := s.SetString(u);
    r := s.Concat(v);
  }

  /** unscan remembers one position only: right after an unscan, whatever
      it returned, a second one raises ScanError. */
  method UnscanTwice(s: Scanner) returns (first: Outcome<Error>, second: Outcome<Error>)
    requires s.Valid()
    modifies s
    ensures s.Valid() && s.str == old(s.str) && s.state == Unmatched
    ensures second == Fail(ScanError(CannotUnscan))
  {
    first := s.Unscan();
    second := s.Unscan();
  }

  /** A dispatch followed by unscan leaves the pointer where it was, whether
      the dispatch matched (unscan goes back to prev) or not (the pointer
      never moved, and unscan fails). */
  method DispatchThenUnscan(s: Scanner, re: Regex, succptr: bool, getstr: bool, headonly: bool)
    returns (r: Result<Value, Error>, u: Outcome<Error>)
    requires s.Valid() && Honest(re)
    modifies s
    ensures s.Valid() && s.str == old(s.str) && s.curr == old(s.curr) && s.state == Unmatched
    ensures u == Pass <==> r.Ok? && r.value != Nil
  {
    r := s.DoScan(re, succptr, getstr, headonly);
    u := s.Unscan();
  }
}
