/**
 * The 24 file classification categories of `src/lib.rs` (`enum Indicator`),
 * their two-letter configuration keys and the fallback table used when a
 * category has no style of its own.
 */
module Indicators {
  import opened Wrappers

  datatype Indicator =
    | Normal                  // no
    | RegularFile             // fi
    | Directory               // di
    | SymbolicLink            // ln
    | FIFO                    // pi
    | Socket                  // so
    | Door                    // do
    | BlockDevice             // bd
    | CharacterDevice         // cd
    | OrphanedSymbolicLink    // or
    | Setuid                  // su
    | Setgid                  // sg
    | Sticky                  // st
    | OtherWritable           // ow
    | StickyAndOtherWritable  // tw
    | ExecutableFile          // ex
    | MissingFile             // mi
    | Capabilities            // ca
    | MultipleHardLinks       // mh
    | LeftCode                // lc
    | RightCode               // rc
    | EndCode                 // ec
    | Reset                   // rs
    | ClearLine               // cl

  /** The configuration key of each indicator, as documented on the enum. */
  function Code(i: Indicator): (s: string)
    ensures |s| == 2 && 'a' <= s[0] <= 'z' && 'a' <= s[1] <= 'z'
  {
    match i
    case Normal => "no"
    case RegularFile => "fi"
    case Directory => "di"
    case SymbolicLink => "ln"
    case FIFO => "pi"
    case Socket => "so"
    case Door => "do"
    case BlockDevice => "bd"
    case CharacterDevice => "cd"
    case OrphanedSymbolicLink => "or"
    case Setuid => "su"
    case Setgid => "sg"
    case Sticky => "st"
    case OtherWritable => "ow"
    case StickyAndOtherWritable => "tw"
    case ExecutableFile => "ex"
    case MissingFile => "mi"
    case Capabilities => "ca"
    case MultipleHardLinks => "mh"
    case LeftCode => "lc"
    case RightCode => "rc"
    case EndCode => "ec"
    case Reset => "rs"
    case ClearLine => "cl"
  }

  /** `Indicator::from`: the indicator whose key is `s`, if any. */
  function FromCode(s: string): (r: Option<Indicator>)
    ensures r.Some? ==> Code(r.value) == s
  {
    if |s| != 2 then None
    else
      match (s[0], s[1])
      case ('n', 'o') => Some(Normal)
      case ('f', 'i') => Some(RegularFile)
      case ('d', 'i') => Some(Directory)
      case ('l', 'n') => Some(SymbolicLink)
      case ('p', 'i') => Some(FIFO)
      case ('s', 'o') => Some(Socket)
      case ('d', 'o') => Some(Door)
      case ('b', 'd') => Some(BlockDevice)
      case ('c', 'd') => Some(CharacterDevice)
      case ('o', 'r') => Some(OrphanedSymbolicLink)
      case ('s', 'u') => Some(Setuid)
      case ('s', 'g') => Some(Setgid)
      case ('s', 't') => Some(Sticky)
      case ('o', 'w') => Some(OtherWritable)
      case ('t', 'w') => Some(StickyAndOtherWritable)
      case ('e', 'x') => Some(ExecutableFile)
      case ('m', 'i') => Some(MissingFile)
      case ('c', 'a') => Some(Capabilities)
      case ('m', 'h') => Some(MultipleHardLinks)
      case ('l', 'c') => Some(LeftCode)
      case ('r', 'c') => Some(RightCode)
      case ('e', 'c') => Some(EndCode)
      case ('r', 's') => Some(Reset)
      case ('c', 'l') => Some(ClearLine)
      case _ => None
  }

  /** Every indicator is recognised from its own key. */
  lemma FromCodeOfCode(i: Indicator)
    ensures FromCode(Code(i)) == Some(i)
  {
  }

  /**
   * `Indicator::from` is one-to-one: it accepts exactly the 24 keys, and each
   * key names exactly one indicator.
   */
  lemma FromCodeIff(s: string, i: Indicator)
    ensures FromCode(s) == Some(i) <==> Code(i) == s
  {
    FromCodeOfCode(i);
  }

  /** Any other string is rejected. */
  lemma FromCodeRejects(s: string)
    ensures FromCode(s).None? <==> forall i :: Code(i) != s
  {
    if FromCode(s).Some? {
      assert Code(FromCode(s).value) == s;
    } else {
      forall i ensures Code(i) != s {
        FromCodeOfCode(i);
      }
    }
  }

  /**
   * The single indicator consulted, in `style_for_indicator`, when an
   * indicator has no style of its own; indicators without a distinct fallback
   * map to themselves.
   */
  function Fallback(i: Indicator): Indicator
  {
    match i
    case Setuid | Setgid | ExecutableFile | MultipleHardLinks => RegularFile
    case StickyAndOtherWritable | OtherWritable | Sticky => Directory
    case OrphanedSymbolicLink => SymbolicLink
    case MissingFile => OrphanedSymbolicLink
    case _ => i
  }

  /**
   * The fallback table is nearly closed: a fallback is its own fallback, except
   * that MissingFile falls back to OrphanedSymbolicLink, which has a fallback
   * of its own (SymbolicLink) that a single lookup never reaches.
   */
  lemma FallbackDepth(i: Indicator)
    ensures i != MissingFile ==> Fallback(Fallback(i)) == Fallback(i)
    ensures Fallback(MissingFile) == OrphanedSymbolicLink
    ensures Fallback(Fallback(MissingFile)) == SymbolicLink
    ensures Fallback(i) != i ==> Fallback(i) in {RegularFile, Directory, SymbolicLink, OrphanedSymbolicLink}
  {
  }
}
