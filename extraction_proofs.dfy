/** What `extract_message` finds in a line that holds a rendered JSON object
    whose key `"telemetry-source"` is the first occurrence of the token:
    exactly that object, with the corrected backslash rule always, and with
    the plugin's rule when no string before the key holds an escape. */
module ExtractionProofs {
  import opened Wrappers
  import opened Strings
  import opened Json
  import opened JsonText
  import opened TelemetryToken
  import opened BorderScanner
  import opened BorderProofs
  import opened TelemetryExtractor

  /** A string's content written without escapes. */
  function LitUnits(s: string): (us: seq<Unit>)
    ensures |us| == |s| && forall i :: 0 <= i < |s| ==> us[i] == Lit(s[i])
  {
    seq(|s|, i requires 0 <= i < |s| => Lit(s[i]))
  }

  lemma {:induction false} RenderLitUnits(s: string)
    ensures RenderUnits(LitUnits(s)) == s
    decreases |s|
  {
    if s != [] {
      assert LitUnits(s)[1..] == LitUnits(s[1..]);
      RenderLitUnits(s[1..]);
      assert s == [s[0]] + s[1..];
    }
  }

  /** Text that can stand in a string unescaped. */
  predicate Unescaped(s: string) {
    forall i :: 0 <= i < |s| ==> WfUnit(Lit(s[i]))
  }

  /** The key `"telemetry-source"` as a string item. */
  function TokenKey(): (it: Item)
    ensures IsTokenKey(it)
  {
    assert Unescaped(TokenName);
    RenderLitUnits(TokenName);
    Str(LitUnits(TokenName))
  }

  /** Rendering a single item. */
  lemma RenderSingle(it: Item)
    ensures RenderItems([it]) == RenderItem(it)
  {
    assert [it][1..] == [];
    assert RenderItems([it]) == RenderItem(it) + RenderItems([]);
  }

  /** `"{" + a + b + "}"` placed between `p` and `s`, regrouped around `b`. */
  lemma RegroupBraced(p: string, a: string, b: string, s: string)
    ensures p + ("{" + a + b + "}") + s == (p + "{" + a) + b + ("}" + s)
  {
  }

  /** The same line regrouped around the member `m` that `b` starts with. */
  lemma RegroupMember(p: string, a: string, m: string, c: string, s: string)
    ensures p + ("{" + a + (m + c) + "}") + s == (p + "{" + a) + m + (c + "}" + s)
  {
  }

  /** The same line read in reverse, regrouped around `Reverse(a)`. */
  lemma ReverseBraced(p: string, a: string, b: string, s: string)
    ensures Reverse(p + ("{" + a + b + "}") + s)
         == (Reverse(s) + "}" + Reverse(b)) + Reverse(a) + ("{" + Reverse(p))
  {
    ReverseConcat(p + ("{" + a + b + "}"), s);
    ReverseConcat(p, "{" + a + b + "}");
    ReverseConcat("{" + a + b, "}");
    ReverseConcat("{" + a, b);
    ReverseConcat("{", a);
    assert Reverse("{") == "{";
    assert Reverse("}") == "}";
  }

  /** A rendered object split around one of its members. */
  lemma ObjectAround(pre: seq<Item>, it: Item, post: seq<Item>)
    ensures RenderItems([it] + post) == RenderItem(it) + RenderItems(post)
    ensures RenderItem(Obj(pre + [it] + post))
         == "{" + RenderItems(pre) + (RenderItem(it) + RenderItems(post)) + "}"
  {
    MemberAndAfter(it, post);
    MembersAround(pre, it, post);
  }

  lemma MemberAndAfter(it: Item, post: seq<Item>)
    ensures RenderItems([it] + post) == RenderItem(it) + RenderItems(post)
  {
    RenderItemsConcat([it], post);
    RenderSingle(it);
  }

  lemma MembersAround(pre: seq<Item>, it: Item, post: seq<Item>)
    ensures RenderItems(pre + [it] + post) == RenderItems(pre) + RenderItems([it] + post)
  {
    assert pre + [it] + post == pre + ([it] + post);
    RenderItemsConcat(pre, [it] + post);
  }

  /** The line `p + o + s`, where `o` renders an object whose members are
      `pre`, then `it`, then `post`. */
  function ObjectLine(p: string, pre: seq<Item>, it: Item, post: seq<Item>, s: string): (line: string)
    ensures |line| == |p| + |RenderItem(Obj(pre + [it] + post))| + |s|
    ensures |line| == |p| + 1 + |RenderItems(pre)| + |RenderItem(it)| + |RenderItems(post)| + 1 + |s|
  {
    ObjectAround(pre, it, post);
    p + RenderItem(Obj(pre + [it] + post)) + s
  }

  /** Where `it` starts in that line. */
  function MemberIndex(p: string, pre: seq<Item>): nat {
    |p| + 1 + |RenderItems(pre)|
  }

  /** The line around the member, forwards and backwards. */
  lemma ObjectLineLayout(p: string, pre: seq<Item>, it: Item, post: seq<Item>, s: string)
    ensures ObjectLine(p, pre, it, post, s)
         == (p + "{" + RenderItems(pre)) + RenderItems([it] + post) + ("}" + s)
    ensures Reverse(ObjectLine(p, pre, it, post, s))
         == (Reverse(s) + "}" + Reverse(RenderItems([it] + post))) + RevRenderItems(pre) + ("{" + Reverse(p))
  {
    var a, b := RenderItems(pre), RenderItems([it] + post);
    ObjectAround(pre, it, post);
    assert ObjectLine(p, pre, it, post, s) == p + ("{" + a + b + "}") + s;
    RegroupBraced(p, a, b, s);
    ReverseBraced(p, a, b, s);
    ReverseRenderItems(pre);
  }

  /** Forwards from the member: the members from it on, then the `}` that
      closes the object. */
  lemma ForwardLayout(p: string, pre: seq<Item>, it: Item, post: seq<Item>, s: string)
    ensures var line, k, rest := ObjectLine(p, pre, it, post, s), MemberIndex(p, pre), RenderItems([it] + post);
      && OccursAt(line, rest, k) && k + |rest| < |line| && line[k + |rest|] == '}'
      && k + |rest| + 1 == |line| - |s|
  {
    var x, rest, z := p + "{" + RenderItems(pre), RenderItems([it] + post), "}" + s;
    ObjectLineLayout(p, pre, it, post, s);
    OccursInMiddle(x, rest, z);
    assert (x + rest + z)[|x| + |rest|] == z[0];
  }

  /** Forwards from a member, the scan reports the end of the object. */
  lemma ForwardBorder(p: string, pre: seq<Item>, it: Item, post: seq<Item>, s: string, rule: BackslashRule)
    requires WfItem(it) && WfItems(post)
    ensures ObjectBorder(ObjectLine(p, pre, it, post, s), MemberIndex(p, pre), true, false, rule)
         == Some(|ObjectLine(p, pre, it, post, s)| - |s|)
  {
    var line, k := ObjectLine(p, pre, it, post, s), MemberIndex(p, pre);
    ForwardLayout(p, pre, it, post, s);
    assert WfItems([it] + post);
    CloseAfterItemsForward(ScannerConfig(line, true, false, rule), k, k + |RenderItems([it] + post)|, [it] + post);
  }

  /** Backwards from the member: the members before it, reversed, then the
      `{` that opens the object. */
  lemma BackwardLayout(p: string, pre: seq<Item>, it: Item, post: seq<Item>, s: string)
    ensures var line := ObjectLine(p, pre, it, post, s);
      var buf, c, mid := Reverse(line), |line| - MemberIndex(p, pre), RevRenderItems(pre);
      && OccursAt(buf, mid, c) && c + |mid| < |buf| && buf[c + |mid|] == '{'
      && |buf| - (c + |mid| + 1) == |p|
  {
    var x, mid, z := Reverse(s) + "}" + Reverse(RenderItems([it] + post)), RevRenderItems(pre), "{" + Reverse(p);
    ObjectLineLayout(p, pre, it, post, s);
    OccursInMiddle(x, mid, z);
    assert (x + mid + z)[|x| + |mid|] == z[0];
  }

  /** Backwards from a member, the scan reports the start of the object:
      with the corrected rule always, with the plugin's rule when the
      members before it hold no escape. */
  lemma BackwardBorder(p: string, pre: seq<Item>, it: Item, post: seq<Item>, s: string, rule: BackslashRule)
    requires WfItems(pre)
    requires rule == LineOrder || EscapeFreeItems(pre)
    ensures ObjectBorder(ObjectLine(p, pre, it, post, s), MemberIndex(p, pre), false, false, rule) == Some(|p|)
  {
    var line := ObjectLine(p, pre, it, post, s);
    var c := |line| - MemberIndex(p, pre);
    BackwardLayout(p, pre, it, post, s);
    CloseAfterItemsBackward(ScannerConfig(line, false, false, rule), c, c + |RevRenderItems(pre)|, pre);
  }

  /** A member that renders as the token: the key `"telemetry-source"`. */
  predicate IsTokenKey(key: Item) {
    WfItem(key) && RenderItem(key) == QuotedToken
  }

  /** No token occurs in the line before the key. */
  predicate KeyComesFirst(p: string, pre: seq<Item>, key: Item, post: seq<Item>, s: string) {
    forall j :: 0 <= j < MemberIndex(p, pre) ==>
      !OccursAt(ObjectLine(p, pre, key, post, s), QuotedToken, j)
  }

  /** The key is where `match_telemetry_token` finds the token. */
  lemma KeyMatched(p: string, pre: seq<Item>, key: Item, post: seq<Item>, s: string)
    requires IsTokenKey(key) && KeyComesFirst(p, pre, key, post, s)
    ensures MatchTelemetryToken(ObjectLine(p, pre, key, post, s))
         == Some(TokenMatch(MemberIndex(p, pre), false))
  {
    var line := ObjectLine(p, pre, key, post, s);
    var x, z := p + "{" + RenderItems(pre), RenderItems(post) + "}" + s;
    ObjectAround(pre, key, post);
    RegroupMember(p, RenderItems(pre), RenderItem(key), RenderItems(post), s);
    OccursInMiddle(x, RenderItem(key), z);
    FirstPlainTokenMatches(line, MemberIndex(p, pre));
  }

  /** A line holding an object whose key `"telemetry-source"` is where the
      token is matched: the scans locate exactly that object, with the
      corrected backslash rule always, and with the plugin's rule when no
      string before the key holds an escape. */
  lemma LocateKeyedObject(p: string, pre: seq<Item>, key: Item, post: seq<Item>, s: string, rule: BackslashRule)
    requires WfItems(pre) && WfItems(post) && WfItem(key)
    requires MatchTelemetryToken(ObjectLine(p, pre, key, post, s)) == Some(TokenMatch(MemberIndex(p, pre), false))
    requires rule == LineOrder || EscapeFreeItems(pre)
    ensures LocateMessage(ObjectLine(p, pre, key, post, s), rule)
         == Some(Span(|p|, |p| + |RenderItem(Obj(pre + [key] + post))|, false))
  {
    var line, k := ObjectLine(p, pre, key, post, s), MemberIndex(p, pre);
    ForwardBorder(p, pre, key, post, s, rule);
    BackwardBorder(p, pre, key, post, s, rule);
    LocateFromBorders(line, rule, TokenMatch(k, false), Some(|p|), Some(|line| - |s|));
  }

  /** The round trip: a line holding an object whose key is the first
      token gives back what decoding the object's own text gives. */
  lemma ExtractKeyedObject(p: string, pre: seq<Item>, key: Item, post: seq<Item>, s: string, decoder: Decoder, rule: BackslashRule)
    requires WfItems(pre) && WfItems(post) && IsTokenKey(key) && KeyComesFirst(p, pre, key, post, s)
    requires rule == LineOrder || EscapeFreeItems(pre)
    ensures var line := ObjectLine(p, pre, key, post, s);
      Extract(line, decoder, rule) == Decode(RenderItem(Obj(pre + [key] + post)), line, decoder)
  {
    var o := RenderItem(Obj(pre + [key] + post));
    var line := ObjectLine(p, pre, key, post, s);
    KeyMatched(p, pre, key, post, s);
    LocateKeyedObject(p, pre, key, post, s, rule);
    assert line[|p|..|p| + |o|] == o;
  }
}
