/** A line on which the backward scan goes wrong as the plugin counts
    backslashes: `{"k":"\n","telemetry-source":1}`, whose only member before
    the key has a value that starts with an escape. */
module EscapeFinding {
  import opened Wrappers
  import opened Strings
  import opened Json
  import opened JsonText
  import opened TelemetryToken
  import opened BorderScanner
  import opened TelemetryExtractor
  import opened ExtractionProofs

  /** The members before the key: `"k":"\n",`. */
  function EscapePre(): seq<Item> {
    [Str([Lit('k')]), Plain(':'), Str([Esc('n')]), Plain(',')]
  }

  function PreText(): string {
    "\"k\":\"\\n\","
  }

  /** The members after the key: `:1`. */
  function EscapePost(): seq<Item> {
    [Plain(':'), Plain('1')]
  }

  function PostText(): string {
    ":1"
  }

  /** `{"k":"\n","telemetry-source":1}`. */
  function EscapeLine(): string {
    ("{" + PreText()) + QuotedToken + (PostText() + "}")
  }

  lemma EscapePreRendered()
    ensures WfItems(EscapePre())
    ensures RenderItems(EscapePre()) == PreText()
  {
    assert RenderUnits([Lit('k')]) == "k" by {
      assert RenderUnits([Lit('k')]) == RenderUnit(Lit('k')) + RenderUnits([]);
    }
    assert RenderUnits([Esc('n')]) == "\\n" by {
      assert RenderUnits([Esc('n')]) == RenderUnit(Esc('n')) + RenderUnits([]);
    }
    RenderItemsConcat([Str([Lit('k')]), Plain(':')], [Str([Esc('n')]), Plain(',')]);
    RenderItemsConcat([Str([Lit('k')])], [Plain(':')]);
    RenderItemsConcat([Str([Esc('n')])], [Plain(',')]);
    RenderSingle(Str([Lit('k')]));
    RenderSingle(Plain(':'));
    RenderSingle(Str([Esc('n')]));
    RenderSingle(Plain(','));
    assert EscapePre() == [Str([Lit('k')]), Plain(':')] + [Str([Esc('n')]), Plain(',')];
  }

  lemma EscapePostRendered()
    ensures WfItems(EscapePost())
    ensures RenderItems(EscapePost()) == PostText()
  {
    RenderItemsConcat([Plain(':')], [Plain('1')]);
    RenderSingle(Plain(':'));
    RenderSingle(Plain('1'));
    assert EscapePost() == [Plain(':')] + [Plain('1')];
  }

  /** The line is the object with those members around the key. */
  lemma EscapeLineRendered()
    ensures WfItems(EscapePre()) && WfItems(EscapePost())
    ensures ObjectLine("", EscapePre(), TokenKey(), EscapePost(), "") == EscapeLine()
    ensures MemberIndex("", EscapePre()) == 10
  {
    EscapePreRendered();
    EscapePostRendered();
    ObjectAround(EscapePre(), TokenKey(), EscapePost());
    RegroupMember("", PreText(), QuotedToken, PostText(), "");
    assert "" + "{" + PreText() == "{" + PreText();
    assert PostText() + "}" + "" == PostText() + "}";
  }

  /** No token starts before `k` when none of the characters at 1 to `k`
      is the token's first letter. */
  lemma NoTokenBefore(line: string, k: nat)
    requires forall i :: 1 <= i <= k && i < |line| ==> line[i] != TokenName[0]
    ensures forall j :: 0 <= j < k ==> !OccursAt(line, QuotedToken, j)
  {
    forall j | 0 <= j < k
      ensures !OccursAt(line, QuotedToken, j)
    {
      if j + |QuotedToken| <= |line| {
        assert line[j..j + |QuotedToken|][1] == line[j + 1];
        assert QuotedToken[1] == TokenName[0];
      }
    }
  }

  /** The key is the first token of the line. */
  lemma EscapeLineKeyFirst()
    ensures KeyComesFirst("", EscapePre(), TokenKey(), EscapePost(), "")
  {
    EscapeLineRendered();
    var line := EscapeLine();
    assert TokenName[0] !in PreText();
    forall i | 1 <= i <= 10
      ensures line[i] != TokenName[0]
    {
      if i < 10 {
        assert line[i] == PreText()[i - 1];
      } else {
        assert line[i] == QuotedToken[0];
      }
    }
    NoTokenBefore(line, 10);
  }

  /** The start of the line up to the key, read backwards. */
  function RevHead(): string {
    ",\"n\\\":\"k\"{"
  }

  /** The backward scanner's buffer ends with `RevHead()`, from the cursor
      the scanner starts at. */
  lemma EscapeLineReversed()
    ensures |EscapeLine()| == 31
    ensures OccursAt(Reverse(EscapeLine()), RevHead(), 21)
  {
    var head, tail := "{" + PreText(), PostText() + "}";
    ReverseConcat(head + QuotedToken, tail);
    ReverseConcat(head, QuotedToken);
    assert Reverse(head) == RevHead();
    var x := Reverse(tail) + Reverse(QuotedToken);
    assert Reverse(EscapeLine()) == x + RevHead() + "";
    OccursInMiddle(x, RevHead(), "");
  }

  /** The characters of `RevHead()` where it occurs. */
  lemma RevHeadChars(buf: string, j: nat)
    requires OccursAt(buf, RevHead(), j)
    ensures buf[j] == ',' && buf[j + 1] == Quote && buf[j + 2] == 'n' && buf[j + 3] == Backslash
    ensures buf[j + 4] == Quote && buf[j + 5] == ':' && buf[j + 6] == Quote && buf[j + 7] == 'k'
    ensures buf[j + 8] == Quote && buf[j + 9] == '{'
  {
    OccursAtChars(buf, RevHead(), j);
    assert buf[j] == RevHead()[0] && buf[j + 1] == RevHead()[1] && buf[j + 2] == RevHead()[2];
    assert buf[j + 3] == RevHead()[3] && buf[j + 4] == RevHead()[4] && buf[j + 5] == RevHead()[5];
    assert buf[j + 6] == RevHead()[6] && buf[j + 7] == RevHead()[7] && buf[j + 8] == RevHead()[8];
    assert buf[j + 9] == RevHead()[9];
  }

  /** The plugin's backward scan over `,"n\`: the comma, then the quote
      that closes `"\n"` in the line, which the scan takes as opening a
      string. */
  lemma RevHeadScanOpens(cfg: ScanConfig, j: nat)
    requires !cfg.forwards && !cfg.escaped && cfg.rule == BufferOrder
    requires OccursAt(cfg.buf, RevHead(), j)
    ensures Run(cfg, j, ScanState(1, false)) == Run(cfg, j + 4, ScanState(1, true))
  {
    RevHeadChars(cfg.buf, j);
    var outside, inside := ScanState(1, false), ScanState(1, true);
    assert Run(cfg, j, outside) == Run(cfg, j + 1, outside);
    assert Run(cfg, j + 1, outside) == Run(cfg, j + 2, inside);
    assert Run(cfg, j + 2, inside) == Run(cfg, j + 3, inside);
    assert Run(cfg, j + 3, inside) == Run(cfg, j + 4, inside);
  }

  /** The quote that opens `"\n"` in the line follows a backslash in the
      buffer, so the scan takes it as escaped and stays in the string; the
      quote after `:` then closes it. */
  lemma RevHeadScanSkips(cfg: ScanConfig, j: nat)
    requires !cfg.forwards && !cfg.escaped && cfg.rule == BufferOrder
    requires OccursAt(cfg.buf, RevHead(), j)
    ensures Run(cfg, j + 4, ScanState(1, true)) == Run(cfg, j + 7, ScanState(1, false))
  {
    RevHeadChars(cfg.buf, j);
    var outside, inside := ScanState(1, false), ScanState(1, true);
    assert BackslashRun(cfg.buf, j + 4) == 1 + BackslashRun(cfg.buf, j + 3);
    assert BackslashRun(cfg.buf, j + 3) == 0;
    assert Run(cfg, j + 4, inside) == Run(cfg, j + 5, inside);
    assert Run(cfg, j + 5, inside) == Run(cfg, j + 6, inside);
    assert BackslashRun(cfg.buf, j + 6) == 0;
    assert Run(cfg, j + 6, inside) == Run(cfg, j + 7, outside);
  }

  /** `k"{`: the quote that closes `"k"` in the line opens a string, and
      the `{` is read inside it. */
  lemma RevHeadScanEnds(cfg: ScanConfig, j: nat)
    requires !cfg.forwards && !cfg.escaped
    requires OccursAt(cfg.buf, RevHead(), j) && |cfg.buf| == j + |RevHead()|
    ensures Run(cfg, j + 7, ScanState(1, false)) == None
  {
    RevHeadChars(cfg.buf, j);
    var outside, inside := ScanState(1, false), ScanState(1, true);
    assert Run(cfg, j + 7, outside) == Run(cfg, j + 8, outside);
    assert Run(cfg, j + 8, outside) == Run(cfg, j + 9, inside);
    assert Run(cfg, j + 9, inside) == Run(cfg, j + 10, inside);
    assert Run(cfg, j + 10, inside) == None;
  }

  /** With the plugin's rule the backward scan stays inside a string to the
      end of the line and finds no `{`. */
  lemma EscapeLineBackwardScan()
    ensures ObjectBorder(EscapeLine(), 10, false, false, BufferOrder) == None
  {
    EscapeLineReversed();
    var cfg := ScannerConfig(EscapeLine(), false, false, BufferOrder);
    RevHeadScanOpens(cfg, 21);
    RevHeadScanSkips(cfg, 21);
    RevHeadScanEnds(cfg, 21);
  }

  /** The key of `EscapeLine()` is where the token is matched. */
  lemma EscapeLineMatch()
    ensures MatchTelemetryToken(EscapeLine()) == Some(TokenMatch(10, false))
  {
    EscapeLineRendered();
    EscapeLineKeyFirst();
    KeyMatched("", EscapePre(), TokenKey(), EscapePost(), "");
  }

  /** The finding, as written: with the plugin's rule the line yields
      nothing. */
  lemma EscapeLineLostAsWritten(decoder: Decoder)
    ensures Extract(EscapeLine(), decoder, BufferOrder) == NotFound
  {
    EscapeLineMatch();
    EscapeLineBackwardScan();
  }

  /** With the corrected rule the scans locate the whole line. */
  lemma EscapeLineLocatedCorrected()
    ensures LocateMessage(EscapeLine(), LineOrder) == Some(Span(0, |EscapeLine()|, false))
  {
    EscapeLineRendered();
    EscapeLineMatch();
    LocateKeyedObject("", EscapePre(), TokenKey(), EscapePost(), "", LineOrder);
  }

  /** The finding, corrected: with the corrected rule the line yields what
      decoding the whole line gives. */
  lemma EscapeLineFoundCorrected(decoder: Decoder)
    ensures Extract(EscapeLine(), decoder, LineOrder) == Decode(EscapeLine(), EscapeLine(), decoder)
  {
    var line := EscapeLine();
    EscapeLineLocatedCorrected();
    assert line[0..|line|] == line;
  }
}
