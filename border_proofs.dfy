/** What the border scanner does on well-formed JSON text in the plain
    dialect: a scan that meets a piece of JSON text at nesting level 1 or
    more reads over all of it and comes out at the same level, whatever
    braces and quotes the text holds inside its strings. Forwards this holds
    as the plugin scans; backwards it holds when escapes are counted in line
    order, and as the plugin scans only for text whose strings have no
    escapes. */
module BorderProofs {
  import opened Wrappers
  import opened Strings
  import opened JsonText
  import opened BorderScanner

  /** The buffer has a character at `q` that is not a backslash, or ends there. */
  predicate NoBackslashAt(buf: string, q: nat) {
    q <= |buf| && (q == |buf| || buf[q] != Backslash)
  }

  /** Reading a character outside a string: the scan goes on from the next
      character in the state `Step` gives, when that level is not 0. */
  lemma RunOutside(cfg: ScanConfig, p: nat, level: int, next: ScanState)
    requires p < |cfg.buf| && cfg.buf[p] != NewLine && level >= 1
    requires next == Step(cfg, p, ScanState(level, false)) && next.level >= 1
    ensures Run(cfg, p, ScanState(level, false)) == Run(cfg, p + 1, next)
  {
    RunUnfolds(cfg, p, ScanState(level, false));
  }

  /** Forwards, in the plain dialect, one unit of a string leaves the scan
      inside the string, and an even backslash run before it stays even
      after it. */
  lemma SkipUnitForward(cfg: ScanConfig, j: nat, end: nat, level: int, u: Unit)
    requires cfg.forwards && !cfg.escaped && level >= 1
    requires WfUnit(u) && OccursAt(cfg.buf, RenderUnit(u), j) && end == j + |RenderUnit(u)|
    requires BackslashRun(cfg.buf, j) % 2 == 0
    ensures Run(cfg, j, ScanState(level, true)) == Run(cfg, end, ScanState(level, true))
    ensures BackslashRun(cfg.buf, end) % 2 == 0
  {
    OccursAtChars(cfg.buf, RenderUnit(u), j);
    match u {
      case Lit(c) =>
        RunInside(cfg, j, level, false);
      case Esc(c) =>
        var k := j + 1;
        assert cfg.buf[j] == RenderUnit(u)[0] == Backslash;
        assert cfg.buf[k] == RenderUnit(u)[1] == c;
        RunInside(cfg, j, level, false);
        assert BackslashRun(cfg.buf, k) == 1 + BackslashRun(cfg.buf, j);
        RunInside(cfg, k, level, false);
        assert end == k + 1;
        if c == Backslash {
          assert BackslashRun(cfg.buf, end) == 1 + BackslashRun(cfg.buf, k);
        } else {
          assert BackslashRun(cfg.buf, end) == 0;
        }
    }
  }

  /** Where the parts of a text enclosed by two characters lie. */
  lemma Enclosed(buf: string, j: nat, open: char, body: string, close: char)
    requires OccursAt(buf, [open] + body + [close], j)
    ensures buf[j] == open && OccursAt(buf, body, j + 1) && buf[j + 1 + |body|] == close
  {
    OccursAtConcat(buf, j, [open] + body, [close]);
    OccursAtConcat(buf, j, [open], body);
    OccursAtChars(buf, [open], j);
    OccursAtChars(buf, [close], j + 1 + |body|);
  }

  /** A pair of matching braces, in the direction of the scan, around a
      stretch that leaves the raised level unchanged, leaves the level
      unchanged. */
  lemma RunAcrossBraces(cfg: ScanConfig, j: nat, m: nat, level: int)
    requires j < m < |cfg.buf| && level >= 1
    requires cfg.buf[j] == OpenToken(cfg.forwards) && cfg.buf[m] == CloseToken(cfg.forwards)
    requires Run(cfg, j + 1, ScanState(level + 1, false)) == Run(cfg, m, ScanState(level + 1, false))
    ensures Run(cfg, j, ScanState(level, false)) == Run(cfg, m + 1, ScanState(level, false))
  {
    RunOutside(cfg, j, level, ScanState(level + 1, false));
    RunOutside(cfg, m, level + 1, ScanState(level, false));
  }

  /** Forwards, in the plain dialect, the units of a string leave the scan
      inside the string, and an even backslash run before them stays even
      after them. */
  lemma {:induction false} SkipUnitsForward(cfg: ScanConfig, j: nat, end: nat, level: int, us: seq<Unit>)
    requires cfg.forwards && !cfg.escaped && level >= 1
    requires WfUnits(us) && OccursAt(cfg.buf, RenderUnits(us), j) && end == j + |RenderUnits(us)|
    requires BackslashRun(cfg.buf, j) % 2 == 0
    ensures Run(cfg, j, ScanState(level, true)) == Run(cfg, end, ScanState(level, true))
    ensures BackslashRun(cfg.buf, end) % 2 == 0
    decreases |us|
  {
    if us == [] {
      assert RenderUnits(us) == [];
    } else {
      var a, b := RenderUnit(us[0]), RenderUnits(us[1..]);
      assert RenderUnits(us) == a + b;
      OccursAtConcat(cfg.buf, j, a, b);
      assert WfUnit(us[0]) && WfUnits(us[1..]);
      var k := j + |a|;
      SkipUnitForward(cfg, j, k, level, us[0]);
      SkipUnitsForward(cfg, k, end, level, us[1..]);
    }
  }

  /** Forwards, in the plain dialect, a string is read over whole. */
  lemma SkipStrForward(cfg: ScanConfig, j: nat, end: nat, level: int, us: seq<Unit>)
    requires cfg.forwards && !cfg.escaped && level >= 1
    requires WfUnits(us) && OccursAt(cfg.buf, RenderItem(Str(us)), j) && end == j + |RenderItem(Str(us))|
    ensures Run(cfg, j, ScanState(level, false)) == Run(cfg, end, ScanState(level, false))
  {
    var body := RenderUnits(us);
    var k, m := j + 1, j + 1 + |body|;
    Enclosed(cfg.buf, j, Quote, body, Quote);
    RunOutside(cfg, j, level, ScanState(level, true));
    assert BackslashRun(cfg.buf, k) == 0;
    SkipUnitsForward(cfg, k, m, level, us);
    RunInside(cfg, m, level, true);
    assert end == m + 1;
  }

  /** In either direction, a character outside strings other than a brace
      or a quote changes nothing. */
  lemma SkipPlain(cfg: ScanConfig, j: nat, level: int, c: char)
    requires level >= 1
    requires WfItem(Plain(c)) && OccursAt(cfg.buf, [c], j)
    ensures Run(cfg, j, ScanState(level, false)) == Run(cfg, j + 1, ScanState(level, false))
  {
    OccursAtChars(cfg.buf, [c], j);
    RunOutside(cfg, j, level, ScanState(level, false));
  }

  /** Forwards, in the plain dialect, an object is read over whole: its `{`
      raises the level, its items leave it there and its `}` brings it back. */
  lemma {:induction false} SkipObjForward(cfg: ScanConfig, j: nat, end: nat, level: int, items: seq<Item>)
    requires cfg.forwards && !cfg.escaped && level >= 1
    requires WfItems(items) && OccursAt(cfg.buf, RenderItem(Obj(items)), j) && end == j + |RenderItem(Obj(items))|
    ensures Run(cfg, j, ScanState(level, false)) == Run(cfg, end, ScanState(level, false))
    decreases items, 1
  {
    var m := j + 1 + |RenderItems(items)|;
    Enclosed(cfg.buf, j, '{', RenderItems(items), '}');
    SkipItemsForward(cfg, j + 1, m, level + 1, items);
    RunAcrossBraces(cfg, j, m, level);
  }

  /** Forwards, in the plain dialect, a piece of JSON text is read over whole
      and leaves the level where it was. */
  lemma {:induction false} SkipItemForward(cfg: ScanConfig, j: nat, end: nat, level: int, it: Item)
    requires cfg.forwards && !cfg.escaped && level >= 1
    requires WfItem(it) && OccursAt(cfg.buf, RenderItem(it), j) && end == j + |RenderItem(it)|
    ensures Run(cfg, j, ScanState(level, false)) == Run(cfg, end, ScanState(level, false))
    decreases it, 2
  {
    match it
    case Plain(c) => SkipPlain(cfg, j, level, c);
    case Str(us) => SkipStrForward(cfg, j, end, level, us);
    case Obj(items) => SkipObjForward(cfg, j, end, level, items);
  }

  lemma {:induction false} SkipItemsForward(cfg: ScanConfig, j: nat, end: nat, level: int, items: seq<Item>)
    requires cfg.forwards && !cfg.escaped && level >= 1
    requires WfItems(items) && OccursAt(cfg.buf, RenderItems(items), j) && end == j + |RenderItems(items)|
    ensures Run(cfg, j, ScanState(level, false)) == Run(cfg, end, ScanState(level, false))
    decreases items, 0
  {
    if items == [] {
      assert RenderItems(items) == [];
    } else {
      var a, b := RenderItem(items[0]), RenderItems(items[1..]);
      assert RenderItems(items) == a + b;
      OccursAtConcat(cfg.buf, j, a, b);
      assert WfItem(items[0]) && WfItems(items[1..]);
      var k := j + |a|;
      SkipItemForward(cfg, j, k, level, items[0]);
      SkipItemsForward(cfg, k, end, level, items[1..]);
    }
  }

  /** Two backslashes at `j` lengthen the run from `j + 2` by two. */
  lemma BackslashPairFrom(buf: string, j: nat)
    requires j + 2 <= |buf| && buf[j] == Backslash && buf[j + 1] == Backslash
    ensures BackslashRunFrom(buf, j) == 2 + BackslashRunFrom(buf, j + 2)
  {
    assert BackslashRunFrom(buf, j + 1) == 1 + BackslashRunFrom(buf, j + 2);
  }

  /** A reversed unit keeps an even backslash run after it even: it holds
      no backslash, or its backslash starts no run, or it adds two. */
  lemma EvenRunFromUnit(buf: string, j: nat, end: nat, u: Unit)
    requires WfUnit(u) && OccursAt(buf, RevRenderUnit(u), j) && end == j + |RevRenderUnit(u)|
    requires BackslashRunFrom(buf, end) % 2 == 0
    ensures BackslashRunFrom(buf, j) % 2 == 0
  {
    OccursAtChars(buf, RevRenderUnit(u), j);
    if u.Esc? && u.c == Backslash {
      BackslashPairFrom(buf, j);
    }
  }

  /** The backslash run that starts inside the reversed units of a string
      and runs towards its opening quote has even length: escapes come in
      pairs. */
  lemma {:induction false} EvenRunFrom(buf: string, j: nat, end: nat, us: seq<Unit>)
    requires WfUnits(us) && OccursAt(buf, RevRenderUnits(us), j) && end == j + |RevRenderUnits(us)|
    requires end < |buf| && buf[end] == Quote
    ensures BackslashRunFrom(buf, j) % 2 == 0
    decreases |us|
  {
    if us == [] {
      assert RevRenderUnits(us) == [];
    } else {
      var last, front := us[|us| - 1], us[..|us| - 1];
      var a, b := RevRenderUnit(last), RevRenderUnits(front);
      assert RevRenderUnits(us) == a + b;
      OccursAtConcat(buf, j, a, b);
      assert WfUnit(last) && WfUnits(front);
      var k := j + |a|;
      EvenRunFrom(buf, k, end, front);
      EvenRunFromUnit(buf, j, k, last);
    }
  }

  /** Backwards, in the plain dialect, one unit of a string leaves the scan
      inside the string: an escaped quote is followed, in the buffer, by an
      odd backslash run. */
  lemma SkipUnitBackward(cfg: ScanConfig, j: nat, end: nat, level: int, u: Unit)
    requires !cfg.forwards && !cfg.escaped && level >= 1
    requires WfUnit(u) && OccursAt(cfg.buf, RevRenderUnit(u), j) && end == j + |RevRenderUnit(u)|
    requires cfg.rule == LineOrder || u.Lit?
    requires end <= |cfg.buf| && BackslashRunFrom(cfg.buf, end) % 2 == 0
    ensures Run(cfg, j, ScanState(level, true)) == Run(cfg, end, ScanState(level, true))
  {
    OccursAtChars(cfg.buf, RevRenderUnit(u), j);
    match u {
      case Lit(c) =>
        RunInside(cfg, j, level, false);
      case Esc(c) =>
        var k := j + 1;
        assert BackslashRunFrom(cfg.buf, k) == 1 + BackslashRunFrom(cfg.buf, end);
        RunInside(cfg, j, level, false);
        RunInside(cfg, k, level, false);
    }
  }

  /** Backwards, in the plain dialect, the reversed units of a string leave
      the scan inside the string, up to its opening quote. */
  lemma {:induction false} SkipUnitsBackward(cfg: ScanConfig, j: nat, end: nat, level: int, us: seq<Unit>)
    requires !cfg.forwards && !cfg.escaped && level >= 1
    requires WfUnits(us) && OccursAt(cfg.buf, RevRenderUnits(us), j) && end == j + |RevRenderUnits(us)|
    requires end < |cfg.buf| && cfg.buf[end] == Quote
    requires cfg.rule == LineOrder || forall i :: 0 <= i < |us| ==> us[i].Lit?
    ensures Run(cfg, j, ScanState(level, true)) == Run(cfg, end, ScanState(level, true))
    decreases |us|
  {
    if us == [] {
      assert RevRenderUnits(us) == [];
    } else {
      var last, front := us[|us| - 1], us[..|us| - 1];
      var a, b := RevRenderUnit(last), RevRenderUnits(front);
      assert RevRenderUnits(us) == a + b;
      OccursAtConcat(cfg.buf, j, a, b);
      assert WfUnit(last) && WfUnits(front);
      var k := j + |a|;
      EvenRunFrom(cfg.buf, k, end, front);
      SkipUnitBackward(cfg, j, k, level, last);
      SkipUnitsBackward(cfg, k, end, level, front);
    }
  }

  /** Backwards, in the plain dialect, a string is read over whole when what
      follows it in the buffer (precedes it in the line) is not a backslash;
      as the plugin counts backslashes this needs a string without escapes. */
  lemma SkipStrBackward(cfg: ScanConfig, j: nat, end: nat, level: int, us: seq<Unit>)
    requires !cfg.forwards && !cfg.escaped && level >= 1
    requires WfUnits(us) && OccursAt(cfg.buf, RevRenderItem(Str(us)), j) && end == j + |RevRenderItem(Str(us))|
    requires NoBackslashAt(cfg.buf, end)
    requires cfg.rule == LineOrder || EscapeFreeItem(Str(us))
    ensures Run(cfg, j, ScanState(level, false)) == Run(cfg, end, ScanState(level, false))
  {
    var body := RevRenderUnits(us);
    var k, m := j + 1, j + 1 + |body|;
    Enclosed(cfg.buf, j, Quote, body, Quote);
    RunOutside(cfg, j, level, ScanState(level, true));
    SkipUnitsBackward(cfg, k, m, level, us);
    if cfg.rule == LineOrder {
      assert BackslashRunFrom(cfg.buf, m + 1) == 0;
    } else if us == [] {
      assert BackslashRun(cfg.buf, m) == 0;
    } else {
      RevRenderUnitsEnd(us);
      OccursAtChars(cfg.buf, body, k);
      assert cfg.buf[m - 1] == body[|body| - 1];
      assert BackslashRun(cfg.buf, m) == 0;
    }
    RunInside(cfg, m, level, true);
  }

  /** Backwards, an object is read over whole: its `}` raises the level, its
      items leave it there and its `{` brings it back. */
  lemma {:induction false} SkipObjBackward(cfg: ScanConfig, j: nat, end: nat, level: int, items: seq<Item>)
    requires !cfg.forwards && !cfg.escaped && level >= 1
    requires WfItems(items) && OccursAt(cfg.buf, RevRenderItem(Obj(items)), j) && end == j + |RevRenderItem(Obj(items))|
    requires cfg.rule == LineOrder || EscapeFreeItems(items)
    ensures Run(cfg, j, ScanState(level, false)) == Run(cfg, end, ScanState(level, false))
    decreases items, 1
  {
    var m := j + 1 + |RevRenderItems(items)|;
    Enclosed(cfg.buf, j, '}', RevRenderItems(items), '{');
    SkipItemsBackward(cfg, j + 1, m, level + 1, items);
    RunAcrossBraces(cfg, j, m, level);
  }

  /** Backwards, in the plain dialect, a piece of JSON text is read over
      whole and leaves the level where it was, when what follows it in the
      buffer is not a backslash. */
  lemma {:induction false} SkipItemBackward(cfg: ScanConfig, j: nat, end: nat, level: int, it: Item)
    requires !cfg.forwards && !cfg.escaped && level >= 1
    requires WfItem(it) && OccursAt(cfg.buf, RevRenderItem(it), j) && end == j + |RevRenderItem(it)|
    requires NoBackslashAt(cfg.buf, end)
    requires cfg.rule == LineOrder || EscapeFreeItem(it)
    ensures Run(cfg, j, ScanState(level, false)) == Run(cfg, end, ScanState(level, false))
    decreases it, 2
  {
    match it
    case Plain(c) => SkipPlain(cfg, j, level, c);
    case Str(us) => SkipStrBackward(cfg, j, end, level, us);
    case Obj(items) => SkipObjBackward(cfg, j, end, level, items);
  }

  lemma {:induction false} SkipItemsBackward(cfg: ScanConfig, j: nat, end: nat, level: int, items: seq<Item>)
    requires !cfg.forwards && !cfg.escaped && level >= 1
    requires WfItems(items) && OccursAt(cfg.buf, RevRenderItems(items), j) && end == j + |RevRenderItems(items)|
    requires NoBackslashAt(cfg.buf, end)
    requires cfg.rule == LineOrder || EscapeFreeItems(items)
    ensures Run(cfg, j, ScanState(level, false)) == Run(cfg, end, ScanState(level, false))
    decreases items, 0
  {
    if items == [] {
      assert RevRenderItems(items) == [];
    } else {
      var last, front := items[|items| - 1], items[..|items| - 1];
      var a, b := RevRenderItem(last), RevRenderItems(front);
      assert RevRenderItems(items) == a + b;
      OccursAtConcat(cfg.buf, j, a, b);
      assert WfItem(last) && WfItems(front);
      assert cfg.rule == LineOrder || (EscapeFreeItem(last) && EscapeFreeItems(front));
      var k := j + |a|;
      if front != [] {
        RevRenderItemStart(front[|front| - 1]);
        assert b == RevRenderItem(front[|front| - 1]) + RevRenderItems(front[..|front| - 1]);
        OccursAtChars(cfg.buf, b, k);
      }
      SkipItemBackward(cfg, j, k, level, last);
      SkipItemsBackward(cfg, k, end, level, front);
    }
  }

  /** Forwards from level 1, members followed by a `}`: the scan reports
      the index just past that brace. */
  lemma CloseAfterItemsForward(cfg: ScanConfig, j: nat, m: nat, items: seq<Item>)
    requires cfg.forwards && !cfg.escaped
    requires WfItems(items) && OccursAt(cfg.buf, RenderItems(items), j) && m == j + |RenderItems(items)|
    requires m < |cfg.buf| && cfg.buf[m] == '}'
    ensures Run(cfg, j, ScanState(1, false)) == Some(m + 1)
  {
    SkipItemsForward(cfg, j, m, 1, items);
    StepOutside(cfg, m, ScanState(1, false));
    RunUnfolds(cfg, m, ScanState(1, false));
  }

  /** Backwards from level 1, reversed members followed by a `{`: the scan
      reports that brace's index in the line. */
  lemma CloseAfterItemsBackward(cfg: ScanConfig, j: nat, e: nat, items: seq<Item>)
    requires !cfg.forwards && !cfg.escaped
    requires WfItems(items) && OccursAt(cfg.buf, RevRenderItems(items), j) && e == j + |RevRenderItems(items)|
    requires e < |cfg.buf| && cfg.buf[e] == '{'
    requires cfg.rule == LineOrder || EscapeFreeItems(items)
    ensures Run(cfg, j, ScanState(1, false)) == Some(|cfg.buf| - (e + 1))
  {
    SkipItemsBackward(cfg, j, e, 1, items);
    StepOutside(cfg, e, ScanState(1, false));
    RunUnfolds(cfg, e, ScanState(1, false));
  }
}
