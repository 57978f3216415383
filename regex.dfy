/** The regular-expression engine as strscan.c uses it: re_match and re_search are
    foreign, so a pattern is given by what those two entry points return when
    handed the bytes from the scan pointer on. */
module Regex {
  import opened Bytes

  /** One entry of `struct re_registers`: the offsets (beg, end) of a group,
      relative to where the engine was started; beg == ABSENT marks a group
      that took no part in the match. */
  datatype Register = Register(beg: int, end: int)

  const ABSENT: int := -1

  /** What re_match / re_search report: -1 (no match), -2 (the engine's
      register buffer overflowed) or a match with its filled-in registers. */
  datatype MatchResult = NoMatch | Overflow | Match(regs: seq<Register>)

  /** A compiled pattern: its anchored entry point (re_match) and its
      searching entry point (re_search), each applied to the rest of the string. */
  datatype Regex = Regex(reMatch: Text -> MatchResult, reSearch: Text -> MatchResult)

  /** A group either absent or inside the n bytes the engine was given. */
  predicate RegisterFits(g: Register, n: int)
  {
    g.beg == ABSENT || 0 <= g.beg <= g.end <= n
  }

  /** The shape assumed of an engine answer over n bytes: register 0 is the
      whole match and lies inside the input (and starts at 0 when anchored);
      every other register is absent or inside the input. */
  predicate Shaped(r: MatchResult, n: int, anchored: bool)
  {
    r.Match? ==>
      && |r.regs| >= 1
      && 0 <= r.regs[0].beg <= r.regs[0].end <= n
      && (anchored ==> r.regs[0].beg == 0)
      && forall i | 0 <= i < |r.regs| :: RegisterFits(r.regs[i], n)
  }

  /** The engine keeps to that shape on every input. */
  ghost predicate Honest(re: Regex)
  {
    && (forall t: Text {:trigger re.reMatch(t)} :: Shaped(re.reMatch(t), |t|, true))
    && (forall t: Text {:trigger re.reSearch(t)} :: Shaped(re.reSearch(t), |t|, false))
  }

  /** The entry point strscan_do_scan calls: re_match when only a match at the
      head counts, re_search otherwise. */
  function Consult(re: Regex, rest: Text, headonly: bool): (r: MatchResult)
    requires Honest(re)
    ensures Shaped(r, |rest|, headonly)
  {
    if headonly then re.reMatch(rest) else re.reSearch(rest)
  }
}
