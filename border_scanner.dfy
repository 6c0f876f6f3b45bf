/** The brace- and quote-aware border scanner of the telemetry filter plugin
    (`JSONObjectBorderScanner`).

    The scanner walks its own buffer one character at a time: the log line
    itself when it scans forwards, the reversed log line when it scans
    backwards. The functions below give the meaning of one step and of a whole
    scan over that buffer; the class at the end is the scanner as the plugin
    runs it, with its cursor and nesting level updated in place, and is proved
    to compute `Run`. */
module BorderScanner {
  import opened Wrappers
  import opened Strings

  const ThreeBackslashes: string := "\\\\\\"

  /** The brace that opens a nested object in the scan direction. */
  function OpenToken(forwards: bool): char {
    if forwards then '{' else '}'
  }

  /** The brace that closes an object in the scan direction. */
  function CloseToken(forwards: bool): char {
    if forwards then '}' else '{'
  }

  /** Ruby's `s[start, len]`: a negative start counts from the end of `s`;
      a start before the beginning or past the end gives `nil`; the slice is
      cut short at the end of `s`. */
  function RubySlice(s: string, start: int, len: nat): (r: Option<string>)
  {
    var from := if start < 0 then start + |s| else start;
    if from < 0 || from > |s| then None
    else Some(s[from..if from + len <= |s| then from + len else |s|])
  }

  /** `adjacent_n_chars(n)` with the cursor at `pos`, just past the quote the
      scanner has read: the `n` characters before that quote when scanning
      forwards, the `n` characters after the cursor (`peek(n)`) when scanning
      backwards. */
  function AdjacentNChars(buf: string, pos: nat, forwards: bool, n: nat): Option<string> {
    if forwards then RubySlice(buf, pos - n - 1, n) else RubySlice(buf, pos, n)
  }

  /** The number of consecutive backslashes that end just before index `j`. */
  function BackslashRun(buf: string, j: nat): (n: nat)
    requires j <= |buf|
    ensures n <= j
    decreases j
  {
    if j == 0 || buf[j - 1] != Backslash then 0 else 1 + BackslashRun(buf, j - 1)
  }

  /** The number of consecutive backslashes that start at index `j`. */
  function BackslashRunFrom(buf: string, j: nat): (n: nat)
    requires j <= |buf|
    ensures j + n <= |buf|
    decreases |buf| - j
  {
    if j == |buf| || buf[j] != Backslash then 0 else 1 + BackslashRunFrom(buf, j + 1)
  }

  /** `BackslashRun` counts a maximal run: backslashes all the way, and no
      backslash just before it. */
  lemma {:induction false} BackslashRunIsMaximal(buf: string, j: nat)
    requires j <= |buf|
    ensures forall k :: j - BackslashRun(buf, j) <= k < j ==> buf[k] == Backslash
    ensures BackslashRun(buf, j) < j ==> buf[j - BackslashRun(buf, j) - 1] != Backslash
    decreases j
  {
    if j > 0 && buf[j - 1] == Backslash {
      BackslashRunIsMaximal(buf, j - 1);
    }
  }

  /** `BackslashRunFrom` counts a maximal run: backslashes all the way, and
      no backslash just after it. */
  lemma {:induction false} BackslashRunFromIsMaximal(buf: string, j: nat)
    requires j <= |buf|
    ensures forall k :: j <= k < j + BackslashRunFrom(buf, j) ==> buf[k] == Backslash
    ensures j + BackslashRunFrom(buf, j) < |buf| ==> buf[j + BackslashRunFrom(buf, j)] != Backslash
    decreases |buf| - j
  {
    if j < |buf| && buf[j] == Backslash {
      BackslashRunFromIsMaximal(buf, j + 1);
    }
  }

  /** Which run of backslashes decides, in the plain dialect, whether a quote
      read inside a string is escaped: the run just before the quote in the
      scanner's own buffer (what the plugin does), or the run just before it
      in the log line (what JSON means; the two differ only backwards). */
  datatype BackslashRule = BufferOrder | LineOrder

  /** What one scan is over: its buffer, its direction, its dialect
      (`escaped`: the JSON is itself the value of a JSON string) and the
      backslash rule. */
  datatype ScanConfig = ScanConfig(buf: string, forwards: bool, escaped: bool, rule: BackslashRule)

  /** The scanner's state between two characters. */
  datatype ScanState = ScanState(level: int, inString: bool)

  /** Outside a string, the quote at `p` opens one: always in the plain
      dialect, and only after a backslash in the escaped dialect. */
  predicate QuoteOpensString(cfg: ScanConfig, p: nat)
    requires p < |cfg.buf|
  {
    !cfg.escaped || AdjacentNChars(cfg.buf, p + 1, cfg.forwards, 1) == Some([Backslash])
  }

  /** The backslashes counted for the quote at `p` in the plain dialect. */
  function EscapingRun(cfg: ScanConfig, p: nat): nat
    requires p < |cfg.buf|
  {
    if cfg.rule == LineOrder && !cfg.forwards then BackslashRunFrom(cfg.buf, p + 1)
    else BackslashRun(cfg.buf, p)
  }

  /** Inside a string, the quote at `p` closes it: when an even number of
      backslashes escape it in the plain dialect, and unless exactly three
      backslashes are adjacent to it in the escaped dialect. */
  predicate QuoteClosesString(cfg: ScanConfig, p: nat)
    requires p < |cfg.buf|
  {
    if cfg.escaped then AdjacentNChars(cfg.buf, p + 1, cfg.forwards, 3) != Some(ThreeBackslashes)
    else EscapingRun(cfg, p) % 2 == 0
  }

  /** The escaped dialect's test, read on the log line: in both scan
      directions the quote at line index `q` opens a string exactly when a
      backslash comes just before it in the line, and closes one unless the
      three characters just before it in the line are all backslashes. */
  lemma EscapedQuoteRule(line: string, q: nat, forwards: bool, rule: BackslashRule)
    requires 1 <= q < |line| && line[q] == Quote
    ensures var cfg, p := ScannerConfig(line, forwards, true, rule), if forwards then q else |line| - 1 - q;
      && cfg.buf[p] == Quote
      && (QuoteOpensString(cfg, p) <==> line[q - 1] == Backslash)
      && (q >= 3 ==> (QuoteClosesString(cfg, p) <==> line[q - 3..q] != ThreeBackslashes))
  {
    var cfg := ScannerConfig(line, forwards, true, rule);
    if forwards {
      EscapedQuoteForward(cfg, q);
    } else {
      assert Reverse(line)[|line| - 1 - q] == line[q];
      EscapedQuoteBackward(line, cfg, q);
    }
  }

  /** Forwards the buffer is the line, and the test reads the characters
      just before the quote. */
  lemma EscapedQuoteForward(cfg: ScanConfig, q: nat)
    requires cfg.forwards && cfg.escaped && 1 <= q < |cfg.buf|
    ensures QuoteOpensString(cfg, q) <==> cfg.buf[q - 1] == Backslash
    ensures q >= 3 ==> (QuoteClosesString(cfg, q) <==> cfg.buf[q - 3..q] != ThreeBackslashes)
  {
    assert AdjacentNChars(cfg.buf, q + 1, true, 1) == Some(cfg.buf[q - 1..q]);
    assert cfg.buf[q - 1..q] == [cfg.buf[q - 1]];
    if q >= 3 {
      assert AdjacentNChars(cfg.buf, q + 1, true, 3) == Some(cfg.buf[q - 3..q]);
    }
  }

  /** Backwards the buffer is the reversed line, and the test reads the
      characters just after the quote there, which are the ones just before
      it in the line. */
  lemma EscapedQuoteBackward(line: string, cfg: ScanConfig, q: nat)
    requires !cfg.forwards && cfg.escaped && cfg.buf == Reverse(line) && 1 <= q < |line|
    ensures QuoteOpensString(cfg, |line| - 1 - q) <==> line[q - 1] == Backslash
    ensures q >= 3 ==> (QuoteClosesString(cfg, |line| - 1 - q) <==> line[q - 3..q] != ThreeBackslashes)
  {
    var buf, p := cfg.buf, |line| - 1 - q;
    assert buf[p + 1..p + 2] == [line[q - 1]];
    assert AdjacentNChars(buf, p + 1, false, 1) == Some([line[q - 1]]);
    if q >= 3 {
      var after := [line[q - 1], line[q - 2], line[q - 3]];
      assert buf[p + 1..p + 4] == after;
      assert AdjacentNChars(buf, p + 1, false, 3) == Some(after);
      ThreeReversed(line[q - 3..q], after);
    }
  }

  /** Three characters are all backslashes in one order exactly when they
      are in the other. */
  lemma ThreeReversed(s: string, t: string)
    requires |s| == 3 && t == [s[2], s[1], s[0]]
    ensures s == ThreeBackslashes <==> t == ThreeBackslashes
  {
    if s == ThreeBackslashes {
      assert t == ThreeBackslashes;
    }
    if t == ThreeBackslashes {
      assert s == [s[0], s[1], s[2]];
    }
  }

  /** Reading the character at `p`. The nesting level moves only outside
      strings, up on the direction's opening brace and down on its closing
      brace; a brace read inside a string changes nothing. */
  function Step(cfg: ScanConfig, p: nat, st: ScanState): (r: ScanState)
    requires p < |cfg.buf|
    ensures st.inString ==> r.level == st.level
    ensures r.level == st.level + 1 <==> !st.inString && cfg.buf[p] == OpenToken(cfg.forwards)
    ensures r.level == st.level - 1 <==> !st.inString && cfg.buf[p] == CloseToken(cfg.forwards)
    ensures r.inString != st.inString ==> cfg.buf[p] == Quote
  {
    var c := cfg.buf[p];
    if !st.inString then
      if c == OpenToken(cfg.forwards) then ScanState(st.level + 1, false)
      else if c == CloseToken(cfg.forwards) then ScanState(st.level - 1, false)
      else if c == Quote && QuoteOpensString(cfg, p) then ScanState(st.level, true)
      else st
    else if c == Quote && QuoteClosesString(cfg, p) then ScanState(st.level, false)
    else st
  }

  /** The index a successful scan reports when the closing brace sits at
      buffer index `p`: just past it forwards, the brace itself in the line
      backwards. */
  function Reported(cfg: ScanConfig, p: nat): nat
    requires p < |cfg.buf|
  {
    if cfg.forwards then p + 1 else |cfg.buf| - (p + 1)
  }

  /** `scan(/./)` finds nothing at `p`: the buffer has ended or a newline
      comes next. */
  predicate Stopped(buf: string, p: nat)
    requires p <= |buf|
  {
    p == |buf| || buf[p] == NewLine
  }

  /** `find_end_of_json_obj` from buffer index `p` in state `st`: `None` when
      the buffer ends, or a newline comes, before the level reaches 0. */
  function Run(cfg: ScanConfig, p: nat, st: ScanState): (r: Option<nat>)
    requires p <= |cfg.buf| && st.level >= 1
    decreases |cfg.buf| - p
  {
    if Stopped(cfg.buf, p) then
      None
    else
      var next := Step(cfg, p, st);
      if next.level == 0 then Some(Reported(cfg, p)) else Run(cfg, p + 1, next)
  }

  /** A scan that succeeds ends on the direction's closing brace: forwards
      it reports the index just past a `}` that comes after `p`; backwards
      the line index of a `{` that comes before the cursor. */
  lemma {:induction false} RunSpan(cfg: ScanConfig, p: nat, st: ScanState)
    requires p <= |cfg.buf| && st.level >= 1
    ensures var r := Run(cfg, p, st);
      r.Some? && cfg.forwards ==> p < r.value <= |cfg.buf| && cfg.buf[r.value - 1] == '}'
    ensures var r := Run(cfg, p, st);
      r.Some? && !cfg.forwards ==> r.value < |cfg.buf| - p && cfg.buf[|cfg.buf| - 1 - r.value] == '{'
    decreases |cfg.buf| - p
  {
    if !Stopped(cfg.buf, p) && Step(cfg, p, st).level != 0 {
      RunSpan(cfg, p + 1, Step(cfg, p, st));
    }
  }

  /** The scan of a scanner built with `JSONObjectBorderScanner.new(line,
      start_pos:, forwards:)`: over the line or the reversed line. The plugin
      counts backslashes with `BufferOrder`. */
  function ScannerConfig(line: string, forwards: bool, escaped: bool, rule: BackslashRule): ScanConfig {
    ScanConfig(if forwards then line else Reverse(line), forwards, escaped, rule)
  }

  /** Where a scanner started at character `startPos` of the line puts its
      cursor in its buffer. */
  function StartCursor(line: string, startPos: nat, forwards: bool): nat
    requires startPos <= |line|
  {
    if forwards then startPos else |line| - startPos
  }

  /** The border a fresh scanner finds: forwards, the index just past the
      `}` that closes the object around `startPos`; backwards, the index of the
      `{` that opens it. */
  function ObjectBorder(line: string, startPos: nat, forwards: bool, escaped: bool, rule: BackslashRule): (r: Option<nat>)
    requires startPos <= |line|
    ensures r.Some? && forwards ==> startPos < r.value <= |line| && line[r.value - 1] == '}'
    ensures r.Some? && !forwards ==> r.value < startPos && line[r.value] == '{'
  {
    var cfg := ScannerConfig(line, forwards, escaped, rule);
    RunSpan(cfg, StartCursor(line, startPos, forwards), ScanState(1, false));
    Run(cfg, StartCursor(line, startPos, forwards), ScanState(1, false))
  }

  /** One step of `Run`: it stops at the end or a newline, reports the
      border when the level reaches 0, and otherwise goes on from the next
      character. */
  lemma RunUnfolds(cfg: ScanConfig, p: nat, st: ScanState)
    requires p <= |cfg.buf| && !Stopped(cfg.buf, p) && st.level >= 1
    ensures Step(cfg, p, st).level == 0 ==> Run(cfg, p, st) == Some(Reported(cfg, p))
    ensures Step(cfg, p, st).level != 0 ==> Run(cfg, p, st) == Run(cfg, p + 1, Step(cfg, p, st))
  {
  }

  /** The step outside a string, case by case as the plugin's `case` reads. */
  lemma StepOutside(cfg: ScanConfig, p: nat, st: ScanState)
    requires p < |cfg.buf| && !st.inString
    ensures cfg.buf[p] == OpenToken(cfg.forwards) ==> Step(cfg, p, st) == ScanState(st.level + 1, false)
    ensures cfg.buf[p] == CloseToken(cfg.forwards) ==> Step(cfg, p, st) == ScanState(st.level - 1, false)
    ensures cfg.buf[p] == Quote ==> Step(cfg, p, st) == ScanState(st.level, QuoteOpensString(cfg, p))
    ensures cfg.buf[p] !in {OpenToken(cfg.forwards), CloseToken(cfg.forwards), Quote} ==> Step(cfg, p, st) == st
  {
  }

  /** The step inside a string: only a closing quote leaves it. */
  lemma StepInside(cfg: ScanConfig, p: nat, st: ScanState)
    requires p < |cfg.buf| && st.inString
    ensures Step(cfg, p, st) == ScanState(st.level, !(cfg.buf[p] == Quote && QuoteClosesString(cfg, p)))
  {
  }

  /** One character read inside a string: the scan goes on from the next
      character, still inside the string unless `leaves`. */
  lemma RunInside(cfg: ScanConfig, p: nat, level: int, leaves: bool)
    requires p <= |cfg.buf| && !Stopped(cfg.buf, p) && level >= 1
    requires leaves == (cfg.buf[p] == Quote && QuoteClosesString(cfg, p))
    ensures Run(cfg, p, ScanState(level, true)) == Run(cfg, p + 1, ScanState(level, !leaves))
  {
    StepInside(cfg, p, ScanState(level, true));
    RunUnfolds(cfg, p, ScanState(level, true));
  }

  /** The plugin's `JSONObjectBorderScanner` (a `StringScanner`): its string
      is the line or the reversed line, its cursor `pos` and its nesting level
      change as it scans. */
  class JsonObjectBorderScanner {
    const originalString: string
    const str: string
    const forwards: bool
    const startObjToken: char
    const endObjToken: char
    var pos: nat
    var objectLevel: int

    ghost predicate Valid()
      reads this
    {
      && |str| == |originalString|
      && startObjToken == OpenToken(forwards)
      && endObjToken == CloseToken(forwards)
      && pos <= |str|
    }

    /** `initialize(string, start_pos:, forwards:)` with the default level 1. */
    constructor (s: string, startPos: nat, forwards: bool)
      requires startPos <= |s|
      ensures Valid()
      ensures originalString == s && this.forwards == forwards
      ensures str == (if forwards then s else Reverse(s))
      ensures pos == StartCursor(s, startPos, forwards) && objectLevel == 1
    {
      originalString := s;
      str := if forwards then s else Reverse(s);
      this.forwards := forwards;
      pos := if forwards then startPos else |s| - startPos;
      objectLevel := 1;
      startObjToken, endObjToken := OpenToken(forwards), CloseToken(forwards);
    }

    /** `scan(/./)`: the next character, unless the string has ended or the
        next character is a newline (which `.` does not match). */
    method ScanChar() returns (c: Option<char>)
      requires Valid()
      modifies this`pos
      ensures Valid()
      ensures Stopped(str, old(pos)) ==> c.None? && pos == old(pos)
      ensures !Stopped(str, old(pos)) ==>
        c == Some(str[old(pos)]) && pos == old(pos) + 1
    {
      if pos == |str| || str[pos] == NewLine {
        c := None;
      } else {
        c := Some(str[pos]);
        pos := pos + 1;
      }
    }

    /** `count_preceding_backslashes(1)`: the backslashes just before the
        quote the scanner has read, counted in its own buffer. */
    method CountPrecedingBackslashes() returns (count: nat)
      requires Valid() && 1 <= pos
      ensures count == BackslashRun(str, pos - 1)
    {
      var checkPos := pos - 2;
      count := 0;
      var tempPos := checkPos;
      while tempPos >= 0 && str[tempPos] == Backslash
        invariant -1 <= tempPos <= checkPos
        invariant count == checkPos - tempPos
        invariant BackslashRun(str, pos - 1) == count + BackslashRun(str, tempPos + 1)
        decreases tempPos
      {
        count := count + 1;
        tempPos := tempPos - 1;
      }
    }

    /** The test the inner loop of `find_end_of_json_obj` applies to the
        quote it has just read: in the plain dialect an even count of
        preceding backslashes, in the escaped dialect anything but exactly
        three backslashes adjacent to it. */
    method QuoteCloses(escaped: bool) returns (closes: bool)
      requires Valid() && 1 <= pos
      ensures closes == QuoteClosesString(ScanConfig(str, forwards, escaped, BufferOrder), pos - 1)
    {
      var escapeLookaheadSize := if escaped then 3 else 1;
      if escapeLookaheadSize == 1 {
        var backslashCount := CountPrecedingBackslashes();
        closes := backslashCount % 2 == 0;
      } else {
        closes := AdjacentNChars(str, pos, forwards, escapeLookaheadSize) != Some(ThreeBackslashes);
      }
    }

    /** The inner loop of `find_end_of_json_obj`: reads up to and including
        the quote that closes the string just opened; `false` when the buffer
        ends, or a newline comes, first. */
    method SkipString(escaped: bool, ghost result: Option<nat>) returns (closed: bool)
      requires Valid() && objectLevel >= 1
      requires Run(ScanConfig(str, forwards, escaped, BufferOrder), pos, ScanState(objectLevel, true)) == result
      modifies this`pos
      ensures Valid() && pos >= old(pos)
      ensures closed ==> Run(ScanConfig(str, forwards, escaped, BufferOrder), pos, ScanState(objectLevel, false)) == result
      ensures !closed ==> result.None? && Stopped(str, pos)
    {
      ghost var cfg := ScanConfig(str, forwards, escaped, BufferOrder);
      ghost var start, level := pos, objectLevel;
      while true
        invariant Valid() && objectLevel == level && start <= pos
        invariant Run(cfg, pos, ScanState(level, true)) == result
        decreases |str| - pos
      {
        ghost var q := pos;
        var current := ScanChar();
        if current.None? {
          return false;
        }
        var leaves := false;
        if current.value == Quote {
          leaves := QuoteCloses(escaped);
        }
        RunInside(cfg, q, level, leaves);
        if leaves {
          return true;
        }
      }
    }

    /** `find_end_of_json_obj(escaped)`: the outer loop counts braces, the
        inner loop skips a string. */
    method FindEndOfJsonObj(escaped: bool) returns (r: Option<nat>)
      requires Valid() && objectLevel >= 1
      modifies this`pos, this`objectLevel
      ensures Valid()
      ensures r == Run(ScanConfig(str, forwards, escaped, BufferOrder), old(pos), ScanState(old(objectLevel), false))
      ensures r.Some? <==> objectLevel == 0
      ensures r.None? ==> objectLevel >= 1 && Stopped(str, pos)
      ensures r.Some? ==> 1 <= pos && r.value == Reported(ScanConfig(str, forwards, escaped, BufferOrder), pos - 1)
    {
      ghost var cfg := ScanConfig(str, forwards, escaped, BufferOrder);
      ghost var result := Run(cfg, pos, ScanState(objectLevel, false));
      while true
        invariant Valid() && objectLevel >= 1
        invariant Run(cfg, pos, ScanState(objectLevel, false)) == result
        decreases |str| - pos
      {
        ghost var p, st := pos, ScanState(objectLevel, false);
        var current := ScanChar();
        if current.None? {
          return None;
        }
        var c := current.value;
        StepOutside(cfg, p, st);
        RunUnfolds(cfg, p, st);
        if c == startObjToken {
          objectLevel := objectLevel + 1;
        } else if c == endObjToken {
          objectLevel := objectLevel - 1;
          if objectLevel == 0 {
            return Some(if forwards then pos else |originalString| - pos);
          }
        } else if c == Quote {
          if escaped && AdjacentNChars(str, pos, forwards, 1) != Some([Backslash]) {
            continue;
          }
          var closed := SkipString(escaped, result);
          if !closed {
            return None;
          }
        }
      }
    }
  }
}
