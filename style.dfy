/**
 * Styles and the SGR (Select Graphic Rendition) parameter parser of
 * `src/style.rs`: a `;`-separated list of decimal bytes is read left to right
 * into a foreground colour, a background colour and three font flags, with the
 * extended colour forms `38;5;n` / `38;2;r;g;b` (and `48;...` for background)
 * of ITU-T T.416 / ECMA-48.
 */
module Styles {
  import opened Wrappers
  import opened Text

  /** Rust's `u8`. */
  type Byte = b: int | 0 <= b < 256

  datatype Color =
    | Black | Red | Green | Yellow | Blue | Purple | Cyan | White
    | Fixed(index: Byte)
    | RGB(red: Byte, green: Byte, blue: Byte)

  datatype FontStyle = FontStyle(bold: bool, italic: bool, underline: bool)

  /** `FontStyle::default()` and the three single-flag constructors. */
  const DefaultFont := FontStyle(false, false, false)
  const BoldFont := FontStyle(true, false, false)
  const ItalicFont := FontStyle(false, true, false)
  const UnderlineFont := FontStyle(false, false, true)

  /** `None` for a colour means "the terminal's default colour". */
  datatype Style = Style(foreground: Option<Color>, background: Option<Color>, fontStyle: FontStyle)

  /** The accumulator the parser starts from. */
  const Plain := Style(None, None, DefaultFont)

  /** The eight named colours, in SGR order (30 + k / 40 + k). */
  function NamedColor(k: int): Color
    requires 0 <= k < 8
  {
    [Black, Red, Green, Yellow, Blue, Purple, Cyan, White][k]
  }

  // ---------------------------------------------------------------------
  // Tokens: u8::from_str_radix(token, 10)

  predicate IsDigit(c: char) { '0' <= c <= '9' }

  predicate AllDigits(s: string) { forall k :: 0 <= k < |s| ==> IsDigit(s[k]) }

  /** The value of a string of decimal digits, most significant first. */
  function DigitsValue(s: string): nat
    requires AllDigits(s)
    decreases |s|
  {
    if |s| == 0 then 0
    else DigitsValue(s[..|s| - 1]) * 10 + (s[|s| - 1] as int - '0' as int)
  }

  /** The canonical decimal rendering of `n` (no sign, no leading zeros). */
  function Decimal(n: nat): (s: string)
    ensures |s| >= 1 && AllDigits(s)
  {
    if n < 10 then ['0' + n as char]
    else Decimal(n / 10) + ['0' + (n % 10) as char]
  }

  /**
   * `u8::from_str_radix(token, 10).ok()`: an optional `+` sign followed by at
   * least one decimal digit, whose value fits in a byte (leading zeros allowed).
   */
  function ParseByte(token: string): (r: Option<Byte>)
    ensures token == "" ==> r.None?
    ensures token == "+" ==> r.None?
    ensures var k := if |token| > 0 && token[0] == '+' then 1 else 0;
      r.Some? <==> k < |token| && AllDigits(token[k..]) && DigitsValue(token[k..]) < 256
    ensures r.Some? ==> var k := if token[0] == '+' then 1 else 0;
                        k < |token| && AllDigits(token[k..]) && DigitsValue(token[k..]) == r.value
  {
    var k := if |token| > 0 && token[0] == '+' then 1 else 0;
    var digits := token[k..];
    if |digits| > 0 && AllDigits(digits) && DigitsValue(digits) < 256 then
      Some(DigitsValue(digits))
    else
      None
  }

  lemma {:induction false} DecimalValue(n: nat)
    ensures DigitsValue(Decimal(n)) == n
  {
    if n >= 10 {
      var s := Decimal(n);
      assert s[..|s| - 1] == Decimal(n / 10);
      DecimalValue(n / 10);
    }
  }

  /** Every byte is read back from its decimal rendering. */
  lemma ParseDecimal(b: Byte)
    ensures ParseByte(Decimal(b)) == Some(b)
  {
    DecimalValue(b);
  }

  lemma {:induction false} LeadingZeroValue(t: string)
    requires AllDigits(t)
    ensures AllDigits("0" + t) && DigitsValue("0" + t) == DigitsValue(t)
    decreases |t|
  {
    var s := "0" + t;
    if |t| > 0 {
      assert s[..|s| - 1] == "0" + t[..|t| - 1];
      LeadingZeroValue(t[..|t| - 1]);
    } else {
      assert s[..0] == "";
    }
  }

  /** Leading zeros do not change a token: `01` is `1`, `0001` is `1`, `00` is `0`. */
  lemma LeadingZeroIgnored(t: string)
    requires |t| > 0 && AllDigits(t)
    ensures ParseByte("0" + t) == ParseByte(t)
  {
    LeadingZeroValue(t);
    assert ("0" + t)[0..] == "0" + t;
    assert t[0..] == t;
  }

  /** `.map(..).collect::<Option<Vec<u8>>>()`: all tokens parse, or nothing does. */
  function ParseTokens(tokens: seq<string>): (r: Option<seq<Byte>>)
    ensures r.Some? <==> forall k :: 0 <= k < |tokens| ==> ParseByte(tokens[k]).Some?
    ensures r.Some? ==> |r.value| == |tokens|
    ensures r.Some? ==> forall k :: 0 <= k < |tokens| ==> Some(r.value[k]) == ParseByte(tokens[k])
    decreases |tokens|
  {
    if |tokens| == 0 then Some([])
    else match (ParseByte(tokens[0]), ParseTokens(tokens[1..]))
      case (Some(b), Some(bs)) => Some([b] + bs)
      case _ => None
  }

  // ---------------------------------------------------------------------
  // Interpretation of a token stream

  /**
   * The colour of an extended colour group after its `38`/`48` and how many
   * tokens it takes: `5;n` or `2;r;g;b`. `None` for an incomplete or unknown group.
   */
  function Extended(rest: seq<Byte>): (r: Option<(Color, nat)>)
    ensures r.Some? ==> 2 <= r.value.1 <= |rest|
  {
    if |rest| >= 2 && rest[0] == 5 then Some((Fixed(rest[1]), 2))
    else if |rest| >= 4 && rest[0] == 2 then Some((RGB(rest[1], rest[2], rest[3]), 4))
    else None
  }

  /** Tokens that update the accumulator on their own. */
  predicate IsSingleToken(t: Byte)
  {
    t == 0 || t == 1 || t == 3 || t == 4 || 30 <= t <= 37 || t == 39 || 40 <= t <= 47 || t == 49
  }

  /** The update one single-token code makes to the accumulated style. */
  function Update(t: Byte, acc: Style): Style
    requires IsSingleToken(t)
  {
    if t == 0 then acc.(fontStyle := DefaultFont)
    else if t == 1 then acc.(fontStyle := acc.fontStyle.(bold := true))
    else if t == 3 then acc.(fontStyle := acc.fontStyle.(italic := true))
    else if t == 4 then acc.(fontStyle := acc.fontStyle.(underline := true))
    else if 30 <= t <= 37 then acc.(foreground := Some(NamedColor(t - 30)))
    else if t == 39 then acc.(foreground := None)
    else if 40 <= t <= 47 then acc.(background := Some(NamedColor(t - 40)))
    else acc.(background := None)
  }

  /**
   * The style reached from `acc` by reading `ts` left to right; reading stops,
   * keeping what was accumulated, at an unknown token or at an incomplete
   * extended colour group.
   */
  function Interpret(ts: seq<Byte>, acc: Style): Style
    decreases |ts|
  {
    if |ts| == 0 then acc
    else
      var t, rest := ts[0], ts[1..];
      if IsSingleToken(t) then Interpret(rest, Update(t, acc))
      else if t == 38 || t == 48 then
        match Extended(rest)
        case None => acc
        case Some((c, n)) =>
          Interpret(rest[n..], if t == 38 then acc.(foreground := Some(c)) else acc.(background := Some(c)))
      else acc
  }

  /** `code.split(';')`. */
  function Tokens(code: string): seq<string>
  {
    Split(code, ';')
  }

  /**
   * What `Style::from_ansi_sequence(code)` returns: a style exactly when every
   * `;`-separated token is a byte, and then the interpretation of those bytes.
   */
  function ParseStyle(code: string): (r: Option<Style>)
    ensures r.Some? <==> forall k :: 0 <= k < |Tokens(code)| ==> ParseByte(Tokens(code)[k]).Some?
    ensures r.Some? ==> r.value == Interpret(ParseTokens(Tokens(code)).value, Plain)
  {
    var bytes := ParseTokens(Tokens(code));
    if bytes.Some? then Some(Interpret(bytes.value, Plain)) else None
  }

  /** `VecDeque::pop_front`. */
  method PopFront(q: seq<Byte>) returns (front: Option<Byte>, rest: seq<Byte>)
    ensures |q| == 0 ==> front.None? && rest == []
    ensures |q| > 0 ==> front == Some(q[0]) && rest == q[1..]
  {
    if |q| == 0 {
      front, rest := None, [];
    } else {
      front, rest := Some(q[0]), q[1..];
    }
  }

  /** `Style::from_ansi_sequence`: the token loop over a deque of bytes. */
  method FromAnsiSequence(code: string) returns (r: Option<Style>)
    ensures r == ParseStyle(code)
  {
    var parsed := ParseTokens(Tokens(code));
    if parsed.None? {
      return None;
    }
    ghost var all := parsed.value;
    var parts := parsed.value;
    var fontStyle := DefaultFont;
    var foreground: Option<Color> := None;
    var background: Option<Color> := None;
    while true
      invariant Interpret(all, Plain) == Interpret(parts, Style(foreground, background, fontStyle))
      decreases |parts|
    {
      ghost var before := parts;
      var front;
      front, parts := PopFront(parts);
      if front.None? {
        break;
      }
      match front.value
      case 0 => fontStyle := DefaultFont;
      case 1 => fontStyle := fontStyle.(bold := true);
      case 3 => fontStyle := fontStyle.(italic := true);
      case 4 => fontStyle := fontStyle.(underline := true);
      case 30 => foreground := Some(Black);
      case 31 => foreground := Some(Red);
      case 32 => foreground := Some(Green);
      case 33 => foreground := Some(Yellow);
      case 34 => foreground := Some(Blue);
      case 35 => foreground := Some(Purple);
      case 36 => foreground := Some(Cyan);
      case 37 => foreground := Some(White);
      case 38 =>
        var mode, first;
        mode, parts := PopFront(parts);
        first, parts := PopFront(parts);
        if mode == Some(5) && first.Some? {
          foreground := Some(Fixed(first.value));
        } else if mode == Some(2) && first.Some? {
          var green, blue;
          green, parts := PopFront(parts);
          blue, parts := PopFront(parts);
          if green.Some? && blue.Some? {
            foreground := Some(RGB(first.value, green.value, blue.value));
          } else {
            break;
          }
        } else {
          break;
        }
      case 39 => foreground := None;
      case 40 => background := Some(Black);
      case 41 => background := Some(Red);
      case 42 => background := Some(Green);
      case 43 => background := Some(Yellow);
      case 44 => background := Some(Blue);
      case 45 => background := Some(Purple);
      case 46 => background := Some(Cyan);
      case 47 => background := Some(White);
      case 48 =>
        var mode, first;
        mode, parts := PopFront(parts);
        first, parts := PopFront(parts);
        if mode == Some(5) && first.Some? {
          background := Some(Fixed(first.value));
        } else if mode == Some(2) && first.Some? {
          var green, blue;
          green, parts := PopFront(parts);
          blue, parts := PopFront(parts);
          if green.Some? && blue.Some? {
            background := Some(RGB(first.value, green.value, blue.value));
          } else {
            break;
          }
        } else {
          break;
        }
      case 49 => background := None;
      case _ => break;
    }
    r := Some(Style(foreground, background, fontStyle));
  }

  // ---------------------------------------------------------------------
  // Properties of the parser

  /** Token kinds of the accumulator updates that take a single token. */
  predicate IsFontToken(t: Byte) { t == 1 || t == 3 || t == 4 }
  predicate IsForegroundToken(t: Byte) { 30 <= t <= 37 || t == 39 }
  predicate IsBackgroundToken(t: Byte) { 40 <= t <= 47 || t == 49 }
  predicate IsKnownToken(t: Byte) { t == 0 || IsFontToken(t) || IsForegroundToken(t) || IsBackgroundToken(t) || t == 38 || t == 48 }

  /** The empty code has one empty token, which is not a byte. */
  lemma EmptyCodeFails()
    ensures ParseStyle("") == None
  {
    assert Tokens("") == [""];
  }

  /** `0` resets the font flags and leaves both colours as they are. */
  lemma ResetFont(acc: Style, rest: seq<Byte>)
    ensures Interpret([0] + rest, acc) == Interpret(rest, Style(acc.foreground, acc.background, DefaultFont))
  {
    assert ([0] + rest)[1..] == rest;
  }

  /** A font token and a single-token colour give the same result in either order. */
  lemma FontCommutesWithColor(f: Byte, c: Byte, acc: Style, rest: seq<Byte>)
    requires IsFontToken(f)
    requires IsForegroundToken(c) || IsBackgroundToken(c)
    ensures Interpret([f, c] + rest, acc) == Interpret([c, f] + rest, acc)
  {
    assert ([f, c] + rest)[1..] == [c] + rest;
    assert ([c, f] + rest)[1..] == [f] + rest;
    assert ([c] + rest)[1..] == rest;
    assert ([f] + rest)[1..] == rest;
  }

  /** Of two consecutive colour tokens for the same layer the later one wins. */
  lemma LaterColorWins(a: Byte, b: Byte, acc: Style, rest: seq<Byte>)
    requires (IsForegroundToken(a) && IsForegroundToken(b)) || (IsBackgroundToken(a) && IsBackgroundToken(b))
    ensures Interpret([a, b] + rest, acc) == Interpret([b] + rest, acc)
  {
    assert ([a, b] + rest)[1..] == [b] + rest;
    assert ([b] + rest)[1..] == rest;
  }

  /** Two single-token colours for the same layer. */
  predicate SameLayer(a: Byte, b: Byte)
  {
    (IsForegroundToken(a) && IsForegroundToken(b)) || (IsBackgroundToken(a) && IsBackgroundToken(b))
  }

  /** The style with the foreground (`fg`) or background colour set to `c`. */
  function SetLayer(fg: bool, c: Color, acc: Style): Style
  {
    if fg then acc.(foreground := Some(c)) else acc.(background := Some(c))
  }

  /** Two styles that agree except, perhaps, on one layer's colour. */
  predicate AgreeBut(fg: bool, s1: Style, s2: Style)
  {
    if fg then s1.(foreground := None) == s2.(foreground := None)
    else s1.(background := None) == s2.(background := None)
  }

  /**
   * Single tokens that leave one layer alone, followed by a colour for that
   * layer: whatever that layer held before does not matter.
   */
  lemma {:induction false} LayerOverwritten(fg: bool, mid: seq<Byte>, b: Byte, rest: seq<Byte>, acc1: Style, acc2: Style)
    requires AgreeBut(fg, acc1, acc2)
    requires if fg then IsForegroundToken(b) else IsBackgroundToken(b)
    requires forall k :: 0 <= k < |mid| ==>
      IsSingleToken(mid[k]) && !(if fg then IsForegroundToken(mid[k]) else IsBackgroundToken(mid[k]))
    ensures Interpret(mid + [b] + rest, acc1) == Interpret(mid + [b] + rest, acc2)
    decreases |mid|
  {
    var xs := mid + [b] + rest;
    if |mid| == 0 {
      assert xs == [b] + rest && xs[1..] == rest;
      assert Update(b, acc1) == Update(b, acc2);
    } else {
      assert xs[0] == mid[0] && xs[1..] == mid[1..] + [b] + rest;
      assert AgreeBut(fg, Update(mid[0], acc1), Update(mid[0], acc2));
      LayerOverwritten(fg, mid[1..], b, rest, Update(mid[0], acc1), Update(mid[0], acc2));
    }
  }

  /**
   * Of two colours for the same layer, the later one decides, whatever font
   * tokens and colours for the other layer come between them.
   */
  lemma LaterColorWinsAcross(a: Byte, mid: seq<Byte>, b: Byte, acc: Style, rest: seq<Byte>)
    requires SameLayer(a, b)
    requires forall k :: 0 <= k < |mid| ==> IsSingleToken(mid[k]) && !SameLayer(a, mid[k])
    ensures Interpret([a] + mid + [b] + rest, acc) == Interpret(mid + [b] + rest, acc)
  {
    var xs := [a] + mid + [b] + rest;
    assert xs[0] == a && xs[1..] == mid + [b] + rest;
    LayerOverwritten(IsForegroundToken(a), mid, b, rest, Update(a, acc), acc);
  }

  /** A complete extended group is read the same whatever follows it. */
  lemma ExtendedPrefix(args: seq<Byte>, more: seq<Byte>)
    requires Extended(args).Some? && Extended(args).value.1 == |args|
    ensures Extended(args + more) == Extended(args)
    ensures (args + more)[|args|..] == more
  {
  }

  /**
   * A font token and an extended colour group give the same style in either
   * order (the `01;38;5;119` / `38;5;119;01` tests).
   */
  lemma FontCommutesWithGroup(f: Byte, layer: Byte, args: seq<Byte>, acc: Style, rest: seq<Byte>)
    requires IsFontToken(f)
    requires layer == 38 || layer == 48
    requires Extended(args).Some? && Extended(args).value.1 == |args|
    ensures Interpret([f, layer] + args + rest, acc) == Interpret([layer] + args + [f] + rest, acc)
  {
    var c := Extended(args).value.0;
    assert [f, layer] + args + rest == [f] + ([layer] + args + rest);
    SingleStep(f, [layer] + args + rest, acc);
    GroupStep(layer, args, rest, Update(f, acc));
    assert [layer] + args + [f] + rest == [layer] + args + ([f] + rest);
    GroupStep(layer, args, [f] + rest, acc);
    SingleStep(f, rest, SetLayer(layer == 38, c, acc));
  }

  /** Reading one single-token code applies its update. */
  lemma SingleStep(t: Byte, rest: seq<Byte>, acc: Style)
    requires IsSingleToken(t)
    ensures Interpret([t] + rest, acc) == Interpret(rest, Update(t, acc))
  {
    assert ([t] + rest)[1..] == rest;
  }

  /** Reading a complete extended colour group sets the colour of its layer. */
  lemma GroupStep(layer: Byte, args: seq<Byte>, rest: seq<Byte>, acc: Style)
    requires layer == 38 || layer == 48
    requires Extended(args).Some? && Extended(args).value.1 == |args|
    ensures Interpret([layer] + args + rest, acc) == Interpret(rest, SetLayer(layer == 38, Extended(args).value.0, acc))
  {
    ExtendedPrefix(args, rest);
    assert ([layer] + args + rest)[1..] == args + rest;
  }

  /** A colour set by an extended group is overridden by a later colour for the same layer. */
  lemma LaterColorWinsOverGroup(layer: Byte, args: seq<Byte>, mid: seq<Byte>, b: Byte, acc: Style, rest: seq<Byte>)
    requires layer == 38 || layer == 48
    requires Extended(args).Some? && Extended(args).value.1 == |args|
    requires if layer == 38 then IsForegroundToken(b) else IsBackgroundToken(b)
    requires forall k :: 0 <= k < |mid| ==>
      IsSingleToken(mid[k]) && !(if layer == 38 then IsForegroundToken(mid[k]) else IsBackgroundToken(mid[k]))
    ensures Interpret([layer] + args + mid + [b] + rest, acc) == Interpret(mid + [b] + rest, acc)
  {
    var c := Extended(args).value.0;
    var tail := mid + [b] + rest;
    ExtendedPrefix(args, tail);
    var xs := [layer] + args + mid + [b] + rest;
    assert xs[1..] == args + tail;
    var acc1 := if layer == 38 then acc.(foreground := Some(c)) else acc.(background := Some(c));
    LayerOverwritten(layer == 38, mid, b, rest, acc1, acc);
  }

  /** `38;5;n` and `48;5;n` select colour `n` of the 256-colour palette, and reading goes on. */
  lemma FixedColor(layer: Byte, n: Byte, acc: Style, rest: seq<Byte>)
    requires layer == 38 || layer == 48
    ensures Interpret([layer, 5, n] + rest, acc)
         == Interpret(rest, if layer == 38 then acc.(foreground := Some(Fixed(n)))
                            else acc.(background := Some(Fixed(n))))
  {
    var ts := [layer, 5, n] + rest;
    assert ts[1..] == [5, n] + rest;
    assert ts[1..][2..] == rest;
  }

  /** `38;2;r;g;b` and `48;2;r;g;b` select a 24-bit colour, and reading goes on. */
  lemma RgbColor(layer: Byte, r: Byte, g: Byte, b: Byte, acc: Style, rest: seq<Byte>)
    requires layer == 38 || layer == 48
    ensures Interpret([layer, 2, r, g, b] + rest, acc)
         == Interpret(rest, if layer == 38 then acc.(foreground := Some(RGB(r, g, b)))
                            else acc.(background := Some(RGB(r, g, b))))
  {
    var ts := [layer, 2, r, g, b] + rest;
    assert ts[1..] == [2, r, g, b] + rest;
    assert ts[1..][4..] == rest;
  }

  /**
   * An unknown token, or a `38`/`48` whose group is incomplete, ends reading:
   * the accumulated style is the result, whatever follows.
   */
  lemma StopKeepsAccumulated(t: Byte, acc: Style, rest: seq<Byte>)
    requires !IsKnownToken(t) || ((t == 38 || t == 48) && Extended(rest).None?)
    ensures Interpret([t] + rest, acc) == acc
  {
    assert ([t] + rest)[1..] == rest;
  }

  /**
   * An extended group is incomplete exactly when it lacks its follow-up
   * tokens, and a `38` or `48` followed by an incomplete group ends reading
   * with the style accumulated so far.
   */
  lemma IncompleteGroups(layer: Byte, rest: seq<Byte>, acc: Style)
    ensures Extended(rest).None? <==>
      |rest| < 2 || (rest[0] != 5 && rest[0] != 2) || (rest[0] == 2 && |rest| < 4)
    ensures (layer == 38 || layer == 48) && (|rest| < 2 || (rest[0] != 5 && rest[0] != 2) || (rest[0] == 2 && |rest| < 4)) ==>
      Interpret([layer] + rest, acc) == acc
  {
    assert ([layer] + rest)[1..] == rest;
  }

  /**
   * Once set, the bold flag is cleared only by a `0`; and it is set at the end
   * only if it was set at the start or a `1` was read.
   */
  lemma {:induction false} BoldIsSticky(ts: seq<Byte>, acc: Style)
    ensures 0 !in ts && acc.fontStyle.bold ==> Interpret(ts, acc).fontStyle.bold
    ensures Interpret(ts, acc).fontStyle.bold ==> acc.fontStyle.bold || 1 in ts
    decreases |ts|
  {
    if |ts| > 0 {
      var t, rest := ts[0], ts[1..];
      assert forall x :: x in rest ==> x in ts;
      if t == 38 || t == 48 {
        match Extended(rest)
        case None =>
        case Some((c, n)) =>
          assert forall x :: x in rest[n..] ==> x in ts;
          BoldIsSticky(rest[n..], if t == 38 then acc.(foreground := Some(c)) else acc.(background := Some(c)));
      } else if t == 0 {
        BoldIsSticky(rest, acc.(fontStyle := DefaultFont));
      } else if t == 1 {
        BoldIsSticky(rest, acc.(fontStyle := acc.fontStyle.(bold := true)));
      } else if t == 3 {
        BoldIsSticky(rest, acc.(fontStyle := acc.fontStyle.(italic := true)));
      } else if t == 4 {
        BoldIsSticky(rest, acc.(fontStyle := acc.fontStyle.(underline := true)));
      } else if 30 <= t <= 37 {
        BoldIsSticky(rest, acc.(foreground := Some(NamedColor(t - 30))));
      } else if t == 39 {
        BoldIsSticky(rest, acc.(foreground := None));
      } else if 40 <= t <= 47 {
        BoldIsSticky(rest, acc.(background := Some(NamedColor(t - 40))));
      } else if t == 49 {
        BoldIsSticky(rest, acc.(background := None));
      }
    }
  }

  /** The font flag that the font token `f` (`1`, `3` or `4`) sets. */
  function Flag(f: Byte, fs: FontStyle): bool
    requires IsFontToken(f)
  {
    if f == 1 then fs.bold else if f == 3 then fs.italic else fs.underline
  }

  /**
   * The same for each font flag: once set, bold, italic or underline is
   * cleared only by a `0`; and it is set at the end only if it was set at the
   * start or its own token (`1`, `3`, `4`) was read.
   */
  lemma {:induction false} FontFlagIsSticky(f: Byte, ts: seq<Byte>, acc: Style)
    requires IsFontToken(f)
    ensures 0 !in ts && Flag(f, acc.fontStyle) ==> Flag(f, Interpret(ts, acc).fontStyle)
    ensures Flag(f, Interpret(ts, acc).fontStyle) ==> Flag(f, acc.fontStyle) || f in ts
    decreases |ts|
  {
    if |ts| > 0 {
      var t, rest := ts[0], ts[1..];
      assert forall x :: x in rest ==> x in ts;
      if IsSingleToken(t) {
        FontFlagIsSticky(f, rest, Update(t, acc));
      } else if t == 38 || t == 48 {
        match Extended(rest)
        case None =>
        case Some((c, n)) =>
          assert forall x :: x in rest[n..] ==> x in ts;
          FontFlagIsSticky(f, rest[n..], SetLayer(t == 38, c, acc));
      }
    }
  }

  /** Codes without a foreground token leave the foreground untouched. */
  lemma {:induction false} ForegroundNeedsToken(ts: seq<Byte>, acc: Style)
    requires forall k :: 0 <= k < |ts| ==> !IsForegroundToken(ts[k]) && ts[k] != 38
    ensures Interpret(ts, acc).foreground == acc.foreground
    decreases |ts|
  {
    if |ts| > 0 {
      var t, rest := ts[0], ts[1..];
      assert forall k :: 0 <= k < |rest| ==> rest[k] == ts[k + 1];
      if t == 48 {
        match Extended(rest)
        case None =>
        case Some((c, n)) =>
          assert forall k :: 0 <= k < |rest[n..]| ==> rest[n..][k] == ts[k + 1 + n];
          ForegroundNeedsToken(rest[n..], acc.(background := Some(c)));
      } else if t == 0 {
        ForegroundNeedsToken(rest, acc.(fontStyle := DefaultFont));
      } else if t == 1 {
        ForegroundNeedsToken(rest, acc.(fontStyle := acc.fontStyle.(bold := true)));
      } else if t == 3 {
        ForegroundNeedsToken(rest, acc.(fontStyle := acc.fontStyle.(italic := true)));
      } else if t == 4 {
        ForegroundNeedsToken(rest, acc.(fontStyle := acc.fontStyle.(underline := true)));
      } else if 40 <= t <= 47 {
        ForegroundNeedsToken(rest, acc.(background := Some(NamedColor(t - 40))));
      } else if t == 49 {
        ForegroundNeedsToken(rest, acc.(background := None));
      }
    }
  }

  // ---------------------------------------------------------------------
  // Concrete codes

  /** The value of one decimal digit. */
  function DigitValue(c: char): int { c as int - '0' as int }

  /** A one-digit token is a byte. */
  lemma OneDigit(c: char, v: Byte)
    requires IsDigit(c) && v == DigitValue(c)
    ensures ParseByte([c]) == Some(v)
  {
    var s := [c];
    assert s[0..] == s && s[..0] == "";
    assert DigitsValue(s) == DigitsValue(s[..0]) * 10 + DigitValue(c);
  }

  /** A two-digit token is a byte. */
  lemma TwoDigits(c0: char, c1: char, v: Byte)
    requires IsDigit(c0) && IsDigit(c1) && v == 10 * DigitValue(c0) + DigitValue(c1)
    ensures ParseByte([c0, c1]) == Some(v)
  {
    var s := [c0, c1];
    assert s[0..] == s && s[..1] == [c0];
    OneDigit(c0, DigitValue(c0));
    assert DigitsValue(s) == DigitsValue([c0]) * 10 + DigitValue(c1);
  }

  /** A three-digit token is a byte when its value is below 256. */
  lemma ThreeDigits(c0: char, c1: char, c2: char, v: Byte)
    requires IsDigit(c0) && IsDigit(c1) && IsDigit(c2)
    requires v == 100 * DigitValue(c0) + 10 * DigitValue(c1) + DigitValue(c2)
    ensures ParseByte([c0, c1, c2]) == Some(v)
  {
    var s := [c0, c1, c2];
    assert s[0..] == s && s[..2] == [c0, c1];
    TwoDigits(c0, c1, 10 * DigitValue(c0) + DigitValue(c1));
    assert DigitsValue(s) == DigitsValue([c0, c1]) * 10 + DigitValue(c2);
  }

  /** A token list whose every token is the corresponding byte. */
  lemma {:induction false} ParsedTokens(tokens: seq<string>, bytes: seq<Byte>)
    requires |tokens| == |bytes|
    requires forall k :: 0 <= k < |tokens| ==> ParseByte(tokens[k]) == Some(bytes[k])
    ensures ParseTokens(tokens) == Some(bytes)
    decreases |tokens|
  {
    if |tokens| > 0 {
      ParsedTokens(tokens[1..], bytes[1..]);
      assert [bytes[0]] + bytes[1..] == bytes;
    }
  }

  /** A code whose tokens are known bytes has the style of those bytes. */
  lemma CodeStyle(code: string, tokens: seq<string>, bytes: seq<Byte>)
    requires Tokens(code) == tokens
    requires |tokens| == |bytes|
    requires forall k :: 0 <= k < |tokens| ==> ParseByte(tokens[k]) == Some(bytes[k])
    ensures ParseStyle(code) == Some(Interpret(bytes, Plain))
  {
    ParsedTokens(tokens, bytes);
  }

  /** The tokens of a code with one separator. */
  lemma TwoTokens(a: string, b: string)
    requires ';' !in a && ';' !in b
    ensures Tokens(a + ";" + b) == [a, b]
  {
    SplitNoSeparator(b, ';');
    SplitAtFirst(a, ';', b);
  }

  /** One more token in front of a code. */
  lemma MoreTokens(a: string, rest: string, ts: seq<string>, all: seq<string>)
    requires ';' !in a && Tokens(rest) == ts && all == [a] + ts
    ensures Tokens(a + ";" + rest) == all
  {
    SplitAtFirst(a, ';', rest);
  }

  /** A code of one one-digit token. */
  lemma OneDigitCode(code: string, c: char, x: Byte)
    requires code == [c] && IsDigit(c) && x == DigitValue(c)
    ensures ParseStyle(code) == Some(Interpret([x], Plain))
  {
    SplitNoSeparator(code, ';');
    OneDigit(c, x);
    CodeStyle(code, [code], [x]);
  }

  /** A code of one two-digit token. */
  lemma TwoDigitCode(code: string, c0: char, c1: char, x: Byte)
    requires code == [c0, c1] && IsDigit(c0) && IsDigit(c1) && x == 10 * DigitValue(c0) + DigitValue(c1)
    ensures ParseStyle(code) == Some(Interpret([x], Plain))
  {
    SplitNoSeparator(code, ';');
    TwoDigits(c0, c1, x);
    CodeStyle(code, [code], [x]);
  }

  /** A code of two two-digit tokens. */
  lemma TwoByTwoCode(code: string, a0: char, a1: char, b0: char, b1: char, x: Byte, y: Byte)
    requires code == [a0, a1, ';', b0, b1]
    requires IsDigit(a0) && IsDigit(a1) && x == 10 * DigitValue(a0) + DigitValue(a1)
    requires IsDigit(b0) && IsDigit(b1) && y == 10 * DigitValue(b0) + DigitValue(b1)
    ensures ParseStyle(code) == Some(Interpret([x, y], Plain))
  {
    TwoTokens([a0, a1], [b0, b1]);
    assert [a0, a1] + ";" + [b0, b1] == code;
    TwoDigits(a0, a1, x);
    TwoDigits(b0, b1, y);
    CodeStyle(code, [[a0, a1], [b0, b1]], [x, y]);
  }

  /** A code of three two-digit tokens. */
  lemma ThreeByTwoCode(code: string, a0: char, a1: char, b0: char, b1: char, c0: char, c1: char,
                       x: Byte, y: Byte, z: Byte)
    requires code == [a0, a1, ';', b0, b1, ';', c0, c1]
    requires IsDigit(a0) && IsDigit(a1) && x == 10 * DigitValue(a0) + DigitValue(a1)
    requires IsDigit(b0) && IsDigit(b1) && y == 10 * DigitValue(b0) + DigitValue(b1)
    requires IsDigit(c0) && IsDigit(c1) && z == 10 * DigitValue(c0) + DigitValue(c1)
    ensures ParseStyle(code) == Some(Interpret([x, y, z], Plain))
  {
    var a, b, c := [a0, a1], [b0, b1], [c0, c1];
    TwoTokens(b, c);
    MoreTokens(a, b + ";" + c, [b, c], [a, b, c]);
    assert a + ";" + (b + ";" + c) == code;
    TwoDigits(a0, a1, x);
    TwoDigits(b0, b1, y);
    TwoDigits(c0, c1, z);
    CodeStyle(code, [a, b, c], [x, y, z]);
  }

  /** What the token lists of the examples below mean. */
  lemma ExampleMeanings()
    ensures Interpret([31], Plain) == Style(Some(Red), None, DefaultFont)
    ensures Interpret([32, 40], Plain) == Style(Some(Green), Some(Black), DefaultFont)
    ensures Interpret([31, 0], Plain) == Style(Some(Red), None, DefaultFont)
    ensures Interpret([3, 34], Plain) == Style(Some(Blue), None, ItalicFont)
    ensures Interpret([34, 3], Plain) == Style(Some(Blue), None, ItalicFont)
    ensures Interpret([38, 5, 119, 1], Plain) == Style(Some(Fixed(119)), None, BoldFont)
    ensures Interpret([1, 38, 5, 119], Plain) == Style(Some(Fixed(119)), None, BoldFont)
    ensures Interpret([38, 2, 115, 3, 100, 3], Plain) == Style(Some(RGB(115, 3, 100)), None, ItalicFont)
    ensures Interpret([38, 5], Plain) == Plain
  {
  }

  // Each example names its code through a parameter, so that the verifier
  // unfolds `Split` only as far as the lemmas of the proof lead it.

  /** A single colour token. */
  lemma RedExample(code: string)
    requires code == "31"
    ensures ParseStyle(code) == Some(Style(Some(Red), None, DefaultFont))
  {
    SplitNoSeparator(code, ';');
    TwoDigits('3', '1', 31);
    CodeStyle(code, [code], [31]);
    ExampleMeanings();
  }

  /** A foreground and a background colour. */
  lemma GreenOnBlackExample(code: string)
    requires code == "32;40"
    ensures ParseStyle(code) == Some(Style(Some(Green), Some(Black), DefaultFont))
  {
    TwoTokens("32", "40");
    assert "32" + ";" + "40" == code;
    TwoDigits('3', '2', 32); TwoDigits('4', '0', 40);
    CodeStyle(code, ["32", "40"], [32, 40]);
    ExampleMeanings();
  }

  /** A `0` after a colour resets only the font. */
  lemma ResetAfterColorExample(code: string)
    requires code == "31;00"
    ensures ParseStyle(code) == Some(Style(Some(Red), None, DefaultFont))
  {
    TwoTokens("31", "00");
    assert "31" + ";" + "00" == code;
    TwoDigits('3', '1', 31); TwoDigits('0', '0', 0);
    CodeStyle(code, ["31", "00"], [31, 0]);
    ExampleMeanings();
  }

  /** A font token before a colour. */
  lemma ItalicFirstExample(code: string)
    requires code == "03;34"
    ensures ParseStyle(code) == Some(Style(Some(Blue), None, ItalicFont))
  {
    TwoTokens("03", "34");
    assert "03" + ";" + "34" == code;
    TwoDigits('0', '3', 3); TwoDigits('3', '4', 34);
    CodeStyle(code, ["03", "34"], [3, 34]);
    ExampleMeanings();
  }

  /** The same font token after the colour gives the same style. */
  lemma ItalicLastExample(code: string)
    requires code == "34;03"
    ensures ParseStyle(code) == Some(Style(Some(Blue), None, ItalicFont))
  {
    TwoTokens("34", "03");
    assert "34" + ";" + "03" == code;
    TwoDigits('3', '4', 34); TwoDigits('0', '3', 3);
    CodeStyle(code, ["34", "03"], [34, 3]);
    ExampleMeanings();
  }

  /** The tokens of `38;5;119;01`. */
  lemma FixedThenBoldTokens(code: string)
    requires code == "38;5;119;01"
    ensures Tokens(code) == ["38", "5", "119", "01"]
  {
    TwoTokens("119", "01");
    MoreTokens("5", "119" + ";" + "01", ["119", "01"], ["5", "119", "01"]);
    MoreTokens("38", "5" + ";" + ("119" + ";" + "01"), ["5", "119", "01"], ["38", "5", "119", "01"]);
    assert "38" + ";" + ("5" + ";" + ("119" + ";" + "01")) == code;
  }

  /** `38;5;n` is followed by further tokens, which are still read. */
  lemma FixedThenBoldExample(code: string)
    requires code == "38;5;119;01"
    ensures ParseStyle(code) == Some(Style(Some(Fixed(119)), None, BoldFont))
  {
    FixedThenBoldTokens(code);
    TwoDigits('3', '8', 38); OneDigit('5', 5); ThreeDigits('1', '1', '9', 119); TwoDigits('0', '1', 1);
    CodeStyle(code, ["38", "5", "119", "01"], [38, 5, 119, 1]);
    ExampleMeanings();
  }

  /** The tokens of `01;38;5;119`. */
  lemma BoldThenFixedTokens(code: string)
    requires code == "01;38;5;119"
    ensures Tokens(code) == ["01", "38", "5", "119"]
  {
    TwoTokens("5", "119");
    MoreTokens("38", "5" + ";" + "119", ["5", "119"], ["38", "5", "119"]);
    MoreTokens("01", "38" + ";" + ("5" + ";" + "119"), ["38", "5", "119"], ["01", "38", "5", "119"]);
    assert "01" + ";" + ("38" + ";" + ("5" + ";" + "119")) == code;
  }

  /** A font token before an extended group is kept. */
  lemma BoldThenFixedExample(code: string)
    requires code == "01;38;5;119"
    ensures ParseStyle(code) == Some(Style(Some(Fixed(119)), None, BoldFont))
  {
    BoldThenFixedTokens(code);
    TwoDigits('0', '1', 1); TwoDigits('3', '8', 38); OneDigit('5', 5); ThreeDigits('1', '1', '9', 119);
    CodeStyle(code, ["01", "38", "5", "119"], [1, 38, 5, 119]);
    ExampleMeanings();
  }

  /** The tokens of `115;3;100;3`. */
  lemma RgbTailTokens(code: string)
    requires code == "115;3;100;3"
    ensures Tokens(code) == ["115", "3", "100", "3"]
  {
    var c1 := "100" + ";" + "3";
    var c2 := "3" + ";" + c1;
    TwoTokens("100", "3");
    MoreTokens("3", c1, ["100", "3"], ["3", "100", "3"]);
    MoreTokens("115", c2, ["3", "100", "3"], ["115", "3", "100", "3"]);
    assert "115" + ";" + c2 == code;
  }

  /** The tokens of `38;2;115;3;100;3`. */
  lemma RgbThenItalicTokens(code: string)
    requires code == "38;2;115;3;100;3"
    ensures Tokens(code) == ["38", "2", "115", "3", "100", "3"]
  {
    var tail := "115" + ";" + ("3" + ";" + ("100" + ";" + "3"));
    var rest := "2" + ";" + tail;
    assert Tokens(rest) == ["2", "115", "3", "100", "3"] by {
      RgbTailTokens(tail);
      MoreTokens("2", tail, ["115", "3", "100", "3"], ["2", "115", "3", "100", "3"]);
    }
    assert "38" + ";" + rest == code;
    MoreTokens("38", rest, ["2", "115", "3", "100", "3"], ["38", "2", "115", "3", "100", "3"]);
  }

  /** `38;2;r;g;b` is followed by further tokens, which are still read. */
  lemma RgbThenItalicExample(code: string)
    requires code == "38;2;115;3;100;3"
    ensures ParseStyle(code) == Some(Style(Some(RGB(115, 3, 100)), None, ItalicFont))
  {
    RgbThenItalicTokens(code);
    TwoDigits('3', '8', 38); OneDigit('2', 2); ThreeDigits('1', '1', '5', 115);
    OneDigit('3', 3); ThreeDigits('1', '0', '0', 100);
    CodeStyle(code, ["38", "2", "115", "3", "100", "3"], [38, 2, 115, 3, 100, 3]);
    ExampleMeanings();
  }

  /** An incomplete extended group keeps the style read so far. */
  lemma IncompleteGroupExample(code: string)
    requires code == "38;5"
    ensures ParseStyle(code) == Some(Plain)
  {
    TwoTokens("38", "5");
    assert "38" + ";" + "5" == code;
    TwoDigits('3', '8', 38); OneDigit('5', 5);
    CodeStyle(code, ["38", "5"], [38, 5]);
    ExampleMeanings();
  }

  /** A trailing `;` leaves an empty token, which is not a byte. */
  lemma TrailingSeparatorExample(code: string)
    requires code == "31;"
    ensures ParseStyle(code) == None
  {
    SplitAtFirst("31", ';', "");
    SplitNoSeparator("", ';');
    assert "31" + ";" + "" == code;
    assert Tokens(code)[1] == "";
  }

  /** A value above 255 is not a byte. */
  lemma OverflowExample(code: string)
    requires code == "256"
    ensures ParseStyle(code) == None
  {
    SplitNoSeparator(code, ';');
    assert code[0..] == code && code[..2] == "25" && "25"[..1] == "2" && "2"[..0] == "";
    assert DigitsValue("2") == 2;
    assert DigitsValue("25") == 25;
    assert DigitsValue(code) == 256;
  }

  /** A sign `-` is rejected, and a sign `+` accepted, as by `u8::from_str_radix`. */
  lemma SignExamples(minus: string, plus: string)
    requires minus == "-1" && plus == "+1"
    ensures ParseStyle(minus) == None
    ensures ParseStyle(plus) == Some(Style(None, None, BoldFont))
  {
    SplitNoSeparator(minus, ';');
    SplitNoSeparator(plus, ';');
    assert plus[1..] == "1" && "1"[..0] == "";
    assert DigitsValue("1") == 1;
    ParsedTokens([plus], [1]);
  }
}
