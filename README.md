# StringScanner (ext/strscan) in Dafny

Ruby's `StringScanner` is a scan pointer over one string. Each step matches
a regular expression at the pointer, or searches for one from it, and can
move the pointer past the match. The scanner remembers the outcome of the
most recent attempt: a flag, the previous pointer and the register table.
Queries read that outcome: `matched`, `[]`, `pre_match`, `post_match`.

The model is the object in `ext/strscan/strscan.c`:

- `StrScan.Scanner` is a class with four fields. `str` is the string as
  bytes, and `curr` is the scan pointer. `state` is either `Unmatched` or
  `Succeeded(prev, regs)`, which joins `FLAG_MATCHED`, `prev` and `regs`,
  since the last two are legal only while the flag is set. `frozen` says
  whether the string object is frozen.
- `Valid()` is the object invariant. The pointer stays inside the string,
  and a set flag describes registers that fit inside the string from
  `prev` on. Every state-changing method keeps it.
- The methods that update the struct in place are methods with `modifies
  this`. They are the dispatch `strscan_do_scan` and its ten wrappers,
  `getch`, `get_byte`, `adjust_registers_to_matched`, `unscan`, `reset`,
  `terminate`, `pos=`, `string=` and `concat`.
- `StrScan.Dispatch` is the dispatch as a pure function of the string and
  the pointer before it. `DoScan` and its ten wrappers are proved to leave
  exactly the answer, pointer and match data it gives. The lemmas about
  the dispatch are stated on `Dispatch`.
- The readers are functions with `reads this`. They are `peek`, `rest`,
  `rest_size`, `eos?`, `rest?`, `bol?`, `matched?`, `matched`,
  `matched_size`, `[]`, `pre_match` and `post_match`. They stand on the two
  clamped slicers `extract_range` and `extract_beg_len`.
- The regular-expression engine is an oracle (module `Regex`). A `Regex`
  value is a pair of functions, standing for `re_match` and `re_search`.
  Each is applied to the bytes from the pointer on, as the C code passes
  `CURPTR`/`S_RESTLEN`. Each answers `NoMatch`, `Overflow` (the engine's
  -2) or `Match(regs)`. `Honest(re)` is what the model assumes of an
  engine. A match has register 0 inside the rest, anchored at 0 for
  `re_match`. Every other register is the absent marker -1 or lies inside
  the rest too.
- `mbclen` is a function parameter of `getch`, assumed to be at least 1.
- Errors are values. `ScanError`, `RangeError`, the host's
  `ArgumentError` and the host's error for changing a frozen string
  (`TypeError`) each carry a `Message`; `Message.Text()` is the message
  string each raises with.
- Whether the string object is frozen is the field `frozen`. `string=`
  stores a frozen copy (`rb_obj_freeze`), `initialize` stores the caller's
  object as it is, so the constructor takes the caller's frozenness as a
  parameter. `concat` appends through `rb_str_append`, which refuses a
  frozen string; that refusal is the host's string code, which is not part
  of this model, and the model states it as `TypeError`.

Modules `DocPatterns`, `WordExamples` and `DateExamples` check the
documented examples. `DocPatterns` holds hand-written stand-ins for the
patterns those examples use (`/\w+/`, `/\s+/`, `/\d+/`, `/./`, `/../`,
`/(\w+) (\w+) (\d+) /` and literals). They are not a model of the regex
engine. Each example has two methods. The first runs the scanner on any
text and patterns with the few properties that example needs. The second
establishes those properties for the documented string and calls the
first. This split keeps the solver away from the literal strings while it
reasons about the scanner.

Module `PeekOverflow` models the 64-bit `long` arithmetic of
`strscan_peek`'s clamp (see Findings).

Where the comments in `strscan.c` and its code disagree, the model follows
the code:

- `exist?` on 'test string' after `scan(/test/)`: the comment says
  `exist?(/s/)` is 6. The code returns register 0's end relative to the
  pointer, which is 2, and `WordExamples.ExistTestString` proves 2.
- The comment for `bol?` says it is equivalent to `pos == 0`. The code
  also answers true just after a newline.
- The comment for `check_until` shows `matched` as the number 12. The code
  returns the String "12".
- The comment for `StringScanner.new` says the string is copied when
  `dup` is true and frozen in either case. `strscan_initialize` stores the
  argument as given and ignores `dup`. The model stores the bytes it is
  given.
- When `getstr` is set, the dispatch returns the bytes from the old pointer
  to the end of register 0, not from `prev + beg[0]`. When it is clear, it
  returns the end offset `end[0]`, not the match length. For `scan_until`
  the string therefore includes the skipped text, and for `skip_until` the
  number is the distance advanced.
- The comment for `peek` says it returns `string[pos,len]`, which is nil
  for a negative `len`. The code returns "" at the end of the string
  whatever `len` is, and otherwise hands a negative length to `rb_str_new`,
  which raises ArgumentError. `StrScan.Scanner.Peek` states the code's
  behaviour.

## Model

| member | source | states |
|---|---|---|
| StrScan.Scanner.constructor | ext/strscan/strscan.c:180-215 | A new scanner holds the given string object, frozen exactly when the caller's is, has its pointer at 0 and its flag clear, and is valid |
| StrScan.Scanner.Pos | ext/strscan/strscan.c:338-345 | `pos` is the pointer, which never exceeds the string's length |
| StrScan.Scanner.Reset | ext/strscan/strscan.c:236-245 | `reset` puts the pointer at 0 and clears the flag; the string is unchanged |
| StrScan.Scanner.Terminate | ext/strscan/strscan.c:255-264 | `terminate` puts the pointer at the string's length and clears the flag; the string is unchanged |
| StrScan.Scanner.SetString | ext/strscan/strscan.c:286-298 | `string=` replaces the string with a frozen copy, puts the pointer at 0, clears the flag and returns its argument |
| StrScan.MessageTextsDistinct | ext/strscan/strscan.c:366-738 | The message values stand for distinct message strings ("index out of range", "regexp buffer overflow", "cannot unscan: prev match had failed", the host's two), so an error's message identifies its text |
| StrScan.Scanner.Concat | ext/strscan/strscan.c:312-321 | On an unfrozen string `concat` appends and passes; on a frozen one it fails with the frozen-string error and the string stays. Either way the pointer, the match data and the frozen flag are as they were |
| StrScan.ConcatAfterSetString | ext/strscan/strscan.c:286-321 | After `string=`, `concat` always fails and the new string, at pointer 0, stays as it was |
| StrScan.Scanner.SetPos | ext/strscan/strscan.c:357-370 | A negative index has the length added. If the result lies in 0..length, the pointer moves there and the result is returned. Otherwise the result is RangeError "index out of range" and the pointer stays. The match data is never touched |
| StrScan.Dispatch | ext/strscan/strscan.c:377-423 | What `strscan_do_scan` computes from the string and pointer, for all eight flag combinations. At the end of the string the answer is nil without asking the engine. A no-match is nil and an overflow is ScanError "regexp buffer overflow", both with the pointer kept and the flag clear. A match sets the flag, with prev the old pointer and the engine's registers. It moves the pointer to prev + end[0] only when succptr, and answers the bytes from prev to prev + end[0] when getstr, else end[0]. Its contract: the new pointer and match data are valid, prev is the old pointer, the pointer moves only for a successful advancing match, and the only error is the overflow with the flag clear |
| StrScan.DispatchAtEndIgnoresEngine | ext/strscan/strscan.c:387-390 | With the pointer at the end of the string, the answer is nil with the flag clear and the pointer kept, and any two engines give the same step |
| StrScan.DispatchFollowsEngine | ext/strscan/strscan.c:392-422 | Before the end, an engine no-match gives nil and an engine overflow gives ScanError, both with the pointer kept and the flag clear. An engine match sets the flag with the old pointer and exactly the engine's registers, moves the pointer by end[0] exactly when succptr, and answers the first end[0] bytes of the rest when getstr, else end[0] |
| StrScan.Scanner.DoScan | ext/strscan/strscan.c:377-423 | The imperative dispatch clears the flag, asks the engine on the rest and slices through `extract_beg_len`. Its answer, pointer and match data are exactly `Dispatch` of the old string and pointer. The string is unchanged and validity is kept |
| StrScan.DispatchMatchedIffAnswer | ext/strscan/strscan.c:406-422 | The flag is set after a dispatch exactly when the answer is neither nil nor an error |
| StrScan.DispatchAdvanceOnlyMovesPointer | ext/strscan/strscan.c:412-416 | succptr changes only the pointer: the answer and the match data are the same either way, and without it the pointer stays |
| StrScan.DispatchNumberIsLength | ext/strscan/strscan.c:418-422 | The number answered without getstr exists exactly when a string is answered with getstr, and equals that string's length |
| StrScan.DispatchConsumesAnswer | ext/strscan/strscan.c:414-419 | For `scan` and `scan_until`, the old rest is the answered string followed by the new rest |
| StrScan.Scanner.Scan | ext/strscan/strscan.c:448-452 | `scan` is the dispatch anchored, advancing, returning the string |
| StrScan.Scanner.MatchP | ext/strscan/strscan.c:466-470 | `match?` is the dispatch anchored, not advancing, returning the length |
| StrScan.Scanner.Skip | ext/strscan/strscan.c:490-494 | `skip` is the dispatch anchored, advancing, returning the length |
| StrScan.Scanner.Check | ext/strscan/strscan.c:512-516 | `check` is the dispatch anchored, not advancing, returning the string |
| StrScan.Scanner.ScanFull | ext/strscan/strscan.c:522-526 | `scan_full` is the dispatch anchored, with advance and return-string chosen by the caller |
| StrScan.Scanner.ScanUntil | ext/strscan/strscan.c:542-546 | `scan_until` is the dispatch searching, advancing, returning the string |
| StrScan.Scanner.ExistP | ext/strscan/strscan.c:562-566 | `exist?` is the dispatch searching, not advancing, returning the end offset |
| StrScan.Scanner.SkipUntil | ext/strscan/strscan.c:585-589 | `skip_until` is the dispatch searching, advancing, returning the end offset |
| StrScan.Scanner.CheckUntil | ext/strscan/strscan.c:605-609 | `check_until` is the dispatch searching, not advancing, returning the string |
| StrScan.Scanner.SearchFull | ext/strscan/strscan.c:615-619 | `search_full` is the dispatch searching, with advance and return-string chosen by the caller |
| StrScan.Scanner.AdjustRegistersToMatched | ext/strscan/strscan.c:623-634 | The register table becomes the single pair (0, curr - prev); the pointer, prev and the string stay |
| StrScan.Scanner.Getch | ext/strscan/strscan.c:645-665 | At the end of the string it gives nil, leaves the pointer and clears the flag. Otherwise the pointer advances by mbclen of the current byte, clamped to the bytes left. The flag is set, prev is the old pointer and the table is (0, advance). The result is the bytes stepped over, and afterwards `matched` equals it and `matched_size` is its length |
| StrScan.Scanner.GetByte | ext/strscan/strscan.c:671-687 | At the end of the string it gives nil, leaves the pointer and clears the flag. Otherwise the pointer advances by exactly one and the result is that one byte, with the same match data as `getch`. Afterwards `matched` equals the result and `matched_size` is 1 |
| StrScan.Scanner.Unscan | ext/strscan/strscan.c:731-743 | With the flag clear it raises ScanError "cannot unscan: prev match had failed" and leaves the pointer. Otherwise the pointer goes back to prev. In both cases the flag is clear afterwards |
| StrScan.UnscanTwice | ext/strscan/strscan.c:723-743 | A second consecutive `unscan` always raises ScanError, whatever the first did |
| StrScan.DispatchThenUnscan | ext/strscan/strscan.c:412-414 | Any dispatch followed by `unscan` leaves the pointer where it started. The `unscan` succeeds exactly when the dispatch returned a non-nil value |
| StrScan.NewString | ext/strscan/strscan.c:143 | A copy of len bytes succeeds exactly when len is not negative, and is then the len bytes from beg; a negative length is the host's ArgumentError "negative string size (or size too big)" |
| StrScan.ExtractRange | ext/strscan/strscan.c:136-144 | nil exactly when beg is past the end of the string. Otherwise the bytes [beg, min(end, length)), which is an error only when end is before beg |
| StrScan.ExtractBegLen | ext/strscan/strscan.c:147-155 | nil exactly when beg is past the end of the string. Otherwise the bytes from beg of length min(len, length - beg), which is an error only for a negative len |
| StrScan.ExtractBegLenIsRange | ext/strscan/strscan.c:136-155 | The two slicers agree: a length from beg is the end offset beg + len, for every input including the error cases |
| StrScan.Scanner.Peek | ext/strscan/strscan.c:702-717 | For n >= 0, the bytes from the pointer of length min(n, bytes left), which is "" at the end. A negative n gives "" at the end and the host's ArgumentError elsewhere. The result never reaches past the string. As a function it changes nothing |
| StrScan.Scanner.Rest | ext/strscan/strscan.c:948-958 | The bytes before the pointer followed by `rest` make up the whole string |
| StrScan.Scanner.RestSize | ext/strscan/strscan.c:964-977 | `rest_size` is the length of `rest`, which is the length minus the pointer |
| StrScan.Scanner.EosP | ext/strscan/strscan.c:768-778 | `eos?` holds exactly when `rest` is empty, that is when the pointer is at the end |
| StrScan.Scanner.RestP | ext/strscan/strscan.c:788-798 | `rest?` is the negation of `eos?` and holds exactly when `rest_size` is positive |
| StrScan.Scanner.BolP | ext/strscan/strscan.c:753-762 | nil exactly when the pointer is past the end, which a valid scanner never is. true exactly at position 0 or just after a newline byte |
| StrScan.Scanner.MatchedP | ext/strscan/strscan.c:811-821 | `matched?` holds exactly when `matched` is not nil |
| StrScan.Scanner.Matched | ext/strscan/strscan.c:831-841 | nil exactly when the flag is clear; otherwise the bytes [prev + beg[0], prev + end[0]) |
| StrScan.Scanner.MatchedSize | ext/strscan/strscan.c:854-863 | nil exactly when the flag is clear; otherwise the length of `matched` |
| StrScan.Scanner.Aref | ext/strscan/strscan.c:880-898 | nil when the flag is clear. Otherwise a negative index counts back from the number of registers. The result is nil exactly when the index is still out of range or the group is absent (-1); otherwise it is the group's bytes. Index 0 is `matched` |
| StrScan.Scanner.PreMatch | ext/strscan/strscan.c:910-919 | nil exactly when the flag is clear; otherwise the bytes before prev + beg[0] |
| StrScan.Scanner.PostMatch | ext/strscan/strscan.c:931-940 | nil exactly when the flag is clear; otherwise the bytes from prev + end[0] to the end |
| StrScan.MatchSplitsString | ext/strscan/strscan.c:831-940 | While matched, `pre_match`, `matched` and `post_match` concatenate to the whole string |
| StrScan.DispatchTextCoversMatch | ext/strscan/strscan.c:412-422 | A string answered by a dispatch is the bytes a search skipped before register 0 followed by register 0's bytes. For an anchored dispatch register 0 starts at the pointer and the answer is exactly its bytes |
| StrScan.DispatchAnswerEndsInMatched | ext/strscan/strscan.c:412-422 | Read through a scanner holding the match data the dispatch left, the answered string is the skipped gap followed by `matched`, and for an anchored dispatch it is `matched` itself |
| Regex.Consult | ext/strscan/strscan.c:392-404 | An anchored call goes to `re_match` and an unanchored one to `re_search`, and the answer keeps the engine's shape over the bytes from the pointer on |
| WordExamples.ScanTestString | ext/strscan/strscan.c:439-444 | scan on 'test string' gives "test", nil, " ", "string", nil and ends at position 11, at the end |
| WordExamples.SkipTestString | ext/strscan/strscan.c:481-486 | skip on 'test string' gives 4, nil, 1, 6, nil |
| WordExamples.MatchTestString | ext/strscan/strscan.c:460-463 | match?(/\w+/) is 4 twice, with matched "test" (lines 826-828 too), match?(/\d+/) is nil and leaves matched? false (804-808), match?(/\s+/) is nil |
| WordExamples.CheckTestString | ext/strscan/strscan.c:847-851 | check(/\w+/) is "test" with matched_size 4; check(/\d+/) is nil with matched_size nil |
| WordExamples.ExistTestString | ext/strscan/strscan.c:555-559 | exist?(/s/) is 3, scan(/test/) "test", then exist?(/s/) 2 and exist?(/e/) nil |
| WordExamples.UnscanTestString | ext/strscan/strscan.c:723-728 | scan "test", unscan, scan(/../) "te", scan(/\d/) nil, then unscan raises ScanError |
| WordExamples.AroundSpaceTestString | ext/strscan/strscan.c:903-907 | After scan "test" and scan " ", pre_match is "test" and post_match "string" (also lines 924-928) |
| WordExamples.PeekSetPosTestString | ext/strscan/strscan.c:696-698 | peek(7) is "test st" twice. pos = 7 gives 7 and leaves rest "ring" (lines 352-354). terminate then puts the pointer at 11 |
| WordExamples.GetchAb | ext/strscan/strscan.c:639-642 | getch on 'ab' with a one-byte encoding gives "a", "b", nil |
| DateExamples.CheckDate | ext/strscan/strscan.c:502-507 | check(/Fri/) is "Fri" with pos 0 and matched "Fri"; check(/12/) is nil with matched nil |
| DateExamples.ScanUntilDate | ext/strscan/strscan.c:536-539 | scan_until(/1/) is "Fri Dec 1" with pre_match "Fri Dec "; scan_until(/XYZ/) is nil |
| DateExamples.UntilTwelveDate | ext/strscan/strscan.c:580-600 | skip_until(/12/) is 10 and moves the pointer to 10. On a fresh scanner check_until(/12/) is "Fri Dec 12", leaves pos 0 and gives matched "12" |
| DateExamples.ScanGroupsDate | ext/strscan/strscan.c:870-877 | scan of the three-group pattern is "Fri Dec 12 ". Groups 0 to 3 are "Fri Dec 12 ", "Fri", "Dec" and "12", group 4 is nil, post_match is "1975 14:39" and pre_match is "" |
| DateExamples.AppendDate | ext/strscan/strscan.c:307-309 | On a scanner made from an unfrozen string, `<<` " +1000 GMT" passes and makes the string "Fri Dec 12 1975 14:39 +1000 GMT" |
| PeekOverflow.WrapLong | ext/strscan/strscan.c:714 | A `long` sum is the mathematical sum reduced into the 64-bit two's-complement range, unchanged when it already fits |
| PeekOverflow.PeekLengthAsWritten | ext/strscan/strscan.c:714-716 | The length peek hands on, including the second clamp at lines 152-153, computed in `long` arithmetic. When curr + n does not overflow, it is min(n, bytes left) |
| PeekOverflow.PeekClampFailsOnOverflow | ext/strscan/strscan.c:714-716 | For a non-negative request, the clamp keeps the length within the bytes left exactly when curr + n does not overflow. Past that point the full request goes through |
| PeekOverflow.PeekOverflowCounterexample | ext/strscan/strscan.c:714-716 | On a 2-byte string with the pointer at 1, peek(LONG_MAX) hands on LONG_MAX bytes while one is left |

## Left out

- The regular-expression engine (`re_match`, `re_search`) is an oracle. The model assumes the shape of its answers (`Regex.Honest`) as a precondition of every dispatch, and does not model how the engine matches.
- `strscan_prepare_re` is empty in the source (line 374) and has no counterpart.
- `mbclen` is a parameter of `getch`, and only `mbclen(c) >= 1` is assumed of it.
- After a failed match the C engine may overwrite `regs`. The model drops the registers as soon as the flag is cleared, because they are only legal while the flag is set.
- The register table's allocation (`ALLOC_N`, `RE_NREGS`, `allocated`) is left out. So are GC marking, `strscan_free`, `strscan_s_allocate`'s zeroing beyond what the constructor states, the method table in `Init_strscan` and `must_C_version`. None of these computes anything about scanning.
- Taint propagation through `infect` and `OBJ_INFECT` is left out; it has no effect on the bytes returned.
- The "uninitialized StringScanner object" error of `GET_SCANNER` cannot arise. The constructor always stores a string, so there is no `nil` string to report.
- `Check_Type` and `StringValue` argument checks are left out, because the model's arguments are typed.
- `string` (`strscan_get_string`) is the field `str`. Ruby shares the string object with the caller, so outside mutation of it is not modelled, and neither is freezing it from outside after `new` (the flag `frozen` changes only through `string=`). The model's string is a value.
- StrScan.Scanner.Concat: the frozen-string error comes from the host's `rb_str_append`, whose source is not part of this model; its exception class (`TypeError`, as the host of this source's era raises it) and message are stated, not derived.
- `inspect` and its helpers build a display string with `snprintf` and `rb_str_dump`, and are cosmetic.
- StrScan.Scanner.SetPos: `NUM2INT`'s range check and truncation to a C `int` are not modelled; the index is an unbounded integer.
- StrScan.Scanner.Aref: `NUM2LONG`'s range check is not modelled; the index is an unbounded integer.
- StrScan.Scanner.Peek: states the clamp over unbounded integers, the evidently intended behaviour. The 64-bit wrap-around of the code as written is modelled apart in `PeekOverflow` (see Findings), and `NUM2LONG`'s range check is not modelled.
- StrScan.Scanner.DoScan: register offsets and the return value are unbounded integers, not the C `int` and `Fixnum` they are in the source. The Fixnum range of `INT2FIX` is not modelled either.
- `rb_str_new` is a host function. `StrScan.NewString` states its negative-length ArgumentError and the bytes it copies otherwise; allocation failure is not modelled.

## Findings

| source | as written | input that shows it | evidently intended | confidence | as-written member | corrected member |
|---|---|---|---|---|---|---|
| ext/strscan/strscan.c:714-715 | `peek` clamps its length by testing whether `curr + len` passes the end, in signed 64-bit `long` arithmetic. `extract_beg_len` repeats the same test at lines 152-153. A `len` near `LONG_MAX` makes the sum wrap negative, so neither clamp fires | a 2-byte string with the pointer at 1, then `peek(9223372036854775807)` | the one remaining byte, as for any other length past the end | not executed; signed overflow is undefined behaviour in C, so wrap-around is assumed | PeekOverflow.PeekOverflowCounterexample | StrScan.Scanner.Peek |
