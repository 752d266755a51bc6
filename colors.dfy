/**
 * `LsColors` of src/lib.rs: the object that holds the two tables, the
 * classifier that picks an indicator for a file system entry, and the
 * lookups that turn an indicator or a file name into a style.
 *
 * The read-only operations are functions of the tables (`Mappings`); the
 * class holds the tables as fields and mutates them in `AddFromString`.
 */
module Colors {
  import opened Wrappers
  import opened Text
  import opened Styles
  import opened Indicators
  import opened Registry
  import opened Defaults

  // ---------------------------------------------------------------------
  // Metadata

  /** The file type tests of `std::fs::FileType`, one per outcome. */
  datatype FileKind = IsFile | IsDir | IsSymlink | IsFifo | IsSocket | IsBlockDevice | IsCharDevice | IsOther

  /**
   * What the classifier reads about a path: its file type, its mode bits and
   * link count, and whether the path resolves (`Path::exists`, which follows
   * symbolic links).
   */
  datatype Metadata = Metadata(kind: FileKind, mode: bv32, nlink: nat, targetExists: bool)

  const SetuidBit: bv32 := 0x800      // 0o4000
  const SetgidBit: bv32 := 0x400      // 0o2000
  const ExecuteBits: bv32 := 0x49     // 0o0111
  const StickyBit: bv32 := 0x200      // 0o1000
  const OtherWriteBit: bv32 := 0x2    // 0o0002

  // ---------------------------------------------------------------------
  // Classification

  /** `has_color_for(i)`: the indicator has an entry in the indicator table. */
  predicate HasColorFor(m: Mappings, i: Indicator)
  {
    i in m.indicators
  }

  /**
   * After an entry `xx=value` for indicator `i`, `i` has a color exactly when
   * `value` parses (a value that does not parse removes it), and every other
   * indicator has one exactly when it had one before.
   */
  lemma ConfiguredAfterEntry(m: Mappings, i: Indicator, value: string)
    requires '=' !in value
    ensures HasColorFor(ApplyEntry(m, Code(i) + "=" + value), i) <==> ParseStyle(value).Some?
    ensures forall j :: j != i ==> (HasColorFor(ApplyEntry(m, Code(i) + "=" + value), j) <==> HasColorFor(m, j))
  {
    IndicatorRule(m, i, value);
  }

  /** The indicators that are only chosen when they are configured. */
  predicate Gated(i: Indicator)
  {
    i in {Setuid, Setgid, ExecutableFile, MultipleHardLinks, StickyAndOtherWritable, OtherWritable, Sticky,
          OrphanedSymbolicLink}
  }

  /** `indicator_for(path, metadata)`. */
  function IndicatorFor(m: Mappings, md: Option<Metadata>): (r: Indicator)
    ensures md.None? ==> r == RegularFile
    ensures Gated(r) ==> HasColorFor(m, r)
    ensures md.Some? && md.value.kind == IsFile ==>
      r in {Setuid, Setgid, ExecutableFile, MultipleHardLinks, RegularFile}
    ensures md.Some? && md.value.kind == IsDir ==> r in {StickyAndOtherWritable, OtherWritable, Sticky, Directory}
    ensures md.Some? && md.value.kind == IsSymlink ==> r in {OrphanedSymbolicLink, SymbolicLink}
  {
    match md
    case None => RegularFile
    case Some(d) =>
      match d.kind
      case IsFile =>
        if HasColorFor(m, Setuid) && d.mode & SetuidBit != 0 then Setuid
        else if HasColorFor(m, Setgid) && d.mode & SetgidBit != 0 then Setgid
        else if HasColorFor(m, ExecutableFile) && d.mode & ExecuteBits != 0 then ExecutableFile
        else if HasColorFor(m, MultipleHardLinks) && d.nlink > 1 then MultipleHardLinks
        else RegularFile
      case IsDir =>
        if HasColorFor(m, StickyAndOtherWritable) && d.mode & (StickyBit | OtherWriteBit) == StickyBit | OtherWriteBit
        then StickyAndOtherWritable
        else if HasColorFor(m, OtherWritable) && d.mode & OtherWriteBit != 0 then OtherWritable
        else if HasColorFor(m, Sticky) && d.mode & StickyBit != 0 then Sticky
        else Directory
      case IsSymlink =>
        if HasColorFor(m, OrphanedSymbolicLink) && !d.targetExists then OrphanedSymbolicLink else SymbolicLink
      case IsFifo => FIFO
      case IsSocket => Socket
      case IsBlockDevice => BlockDevice
      case IsCharDevice => CharacterDevice
      case IsOther => MissingFile
  }

  // A reference reading of the classifier: per file type, a priority list of
  // attribute tests and the indicator taken when none of them is chosen.

  /** The attribute test that indicator `i` stands for. */
  predicate Applies(d: Metadata, i: Indicator)
  {
    match i
    case Setuid => d.mode & SetuidBit != 0
    case Setgid => d.mode & SetgidBit != 0
    case ExecutableFile => d.mode & ExecuteBits != 0
    case MultipleHardLinks => d.nlink > 1
    case StickyAndOtherWritable => d.mode & StickyBit != 0 && d.mode & OtherWriteBit != 0
    case OtherWritable => d.mode & OtherWriteBit != 0
    case Sticky => d.mode & StickyBit != 0
    case OrphanedSymbolicLink => !d.targetExists
    case _ => true
  }

  /** The attribute indicators of a file type, highest priority first. */
  function Candidates(kind: FileKind): seq<Indicator>
  {
    match kind
    case IsFile => [Setuid, Setgid, ExecutableFile, MultipleHardLinks]
    case IsDir => [StickyAndOtherWritable, OtherWritable, Sticky]
    case IsSymlink => [OrphanedSymbolicLink]
    case _ => []
  }

  /** The indicator of a file type when no attribute indicator is chosen. */
  function Base(kind: FileKind): Indicator
  {
    match kind
    case IsFile => RegularFile
    case IsDir => Directory
    case IsSymlink => SymbolicLink
    case IsFifo => FIFO
    case IsSocket => Socket
    case IsBlockDevice => BlockDevice
    case IsCharDevice => CharacterDevice
    case IsOther => MissingFile
  }

  /** The first candidate that is configured and whose test holds, else `base`. */
  function FirstApplicable(m: Mappings, d: Metadata, cs: seq<Indicator>, base: Indicator): Indicator
    decreases |cs|
  {
    if |cs| == 0 then base
    else if HasColorFor(m, cs[0]) && Applies(d, cs[0]) then cs[0]
    else FirstApplicable(m, d, cs[1..], base)
  }

  /**
   * `FirstApplicable` is either `base` or a configured candidate whose test
   * holds, and no earlier candidate is configured with its test holding.
   */
  lemma {:induction false} FirstApplicableMeaning(m: Mappings, d: Metadata, cs: seq<Indicator>, base: Indicator)
    requires base !in cs
    ensures var r := FirstApplicable(m, d, cs, base);
      (r == base || r in cs) &&
      (r in cs ==> HasColorFor(m, r) && Applies(d, r)) &&
      (forall k :: 0 <= k < |cs| && HasColorFor(m, cs[k]) && Applies(d, cs[k]) ==> r in cs[..k + 1])
    decreases |cs|
  {
    if |cs| > 0 && !(HasColorFor(m, cs[0]) && Applies(d, cs[0])) {
      FirstApplicableMeaning(m, d, cs[1..], base);
      assert forall k :: 1 <= k < |cs| ==> cs[1..][..k] == cs[1..k + 1];
    }
  }

  /** Trying a list that starts with `c`. */
  lemma FirstApplicableCons(m: Mappings, d: Metadata, c: Indicator, rest: seq<Indicator>, base: Indicator)
    ensures FirstApplicable(m, d, [c] + rest, base)
      == if HasColorFor(m, c) && Applies(d, c) then c else FirstApplicable(m, d, rest, base)
  {
    assert ([c] + rest)[1..] == rest;
  }

  /** Both the sticky and the other-writable bit are set. */
  lemma BothBits(mode: bv32)
    ensures mode & (StickyBit | OtherWriteBit) == StickyBit | OtherWriteBit
      <==> (mode & StickyBit != 0 && mode & OtherWriteBit != 0)
  {
  }

  /**
   * The classifier takes, for the file type of the entry, the first of its
   * attribute indicators (in priority order) that is configured and whose
   * test holds, and the plain indicator of the type otherwise.
   */
  lemma IndicatorForPriorities(m: Mappings, d: Metadata)
    ensures IndicatorFor(m, Some(d)) == FirstApplicable(m, d, Candidates(d.kind), Base(d.kind))
  {
    match d.kind
    case IsFile => FilePriorities(m, d);
    case IsDir => DirectoryPriorities(m, d);
    case IsSymlink =>
      FirstApplicableCons(m, d, OrphanedSymbolicLink, [], SymbolicLink);
    case _ =>
  }

  /** The regular file case of `IndicatorForPriorities`. */
  lemma FilePriorities(m: Mappings, d: Metadata)
    requires d.kind == IsFile
    ensures IndicatorFor(m, Some(d)) == FirstApplicable(m, d, Candidates(d.kind), Base(d.kind))
  {
    FirstApplicableCons(m, d, Setuid, [Setgid, ExecutableFile, MultipleHardLinks], RegularFile);
    FirstApplicableCons(m, d, Setgid, [ExecutableFile, MultipleHardLinks], RegularFile);
    FirstApplicableCons(m, d, ExecutableFile, [MultipleHardLinks], RegularFile);
    FirstApplicableCons(m, d, MultipleHardLinks, [], RegularFile);
  }

  /** The directory case of `IndicatorForPriorities`. */
  lemma DirectoryPriorities(m: Mappings, d: Metadata)
    requires d.kind == IsDir
    ensures IndicatorFor(m, Some(d)) == FirstApplicable(m, d, Candidates(d.kind), Base(d.kind))
  {
    BothBits(d.mode);
    FirstApplicableCons(m, d, StickyAndOtherWritable, [OtherWritable, Sticky], Directory);
    FirstApplicableCons(m, d, OtherWritable, [Sticky], Directory);
    FirstApplicableCons(m, d, Sticky, [], Directory);
  }

  /** Only which indicators are configured matters to the classifier, not their styles. */
  lemma IndicatorForReadsKeys(m1: Mappings, m2: Mappings, md: Option<Metadata>)
    requires m1.indicators.Keys == m2.indicators.Keys
    ensures IndicatorFor(m1, md) == IndicatorFor(m2, md)
  {
    assert forall i :: HasColorFor(m1, i) <==> HasColorFor(m2, i);
  }

  // ---------------------------------------------------------------------
  // Indicator styles

  /** The first of `keys` that has a style in `table`, with that style. */
  function FirstConfigured(table: map<Indicator, Style>, keys: seq<Indicator>): (r: Option<Style>)
    ensures r.None? <==> forall k :: 0 <= k < |keys| ==> keys[k] !in table
    ensures r.Some? ==> exists k :: 0 <= k < |keys| && keys[k] in table && table[keys[k]] == r.value &&
                                 (forall j :: 0 <= j < k ==> keys[j] !in table)
    decreases |keys|
  {
    if |keys| == 0 then None
    else if keys[0] in table then Some(table[keys[0]])
    else FirstConfigured(table, keys[1..])
  }

  /** Looking up a list that starts with `key`. */
  lemma FirstConfiguredCons(table: map<Indicator, Style>, key: Indicator, rest: seq<Indicator>)
    ensures FirstConfigured(table, [key] + rest)
      == if key in table then Some(table[key]) else FirstConfigured(table, rest)
  {
    assert ([key] + rest)[1..] == rest;
  }

  /** `style_for_indicator(i)`: the indicator, then its one fallback, then `Normal`. */
  function StyleForIndicator(m: Mappings, i: Indicator): (r: Option<Style>)
    ensures r == FirstConfigured(m.indicators, [i, Fallback(i), Normal])
  {
    FirstConfiguredCons(m.indicators, i, [Fallback(i), Normal]);
    FirstConfiguredCons(m.indicators, Fallback(i), [Normal]);
    FirstConfiguredCons(m.indicators, Normal, []);
    if i in m.indicators then Some(m.indicators[i])
    else if Fallback(i) in m.indicators then Some(m.indicators[Fallback(i)])
    else if Normal in m.indicators then Some(m.indicators[Normal])
    else None
  }

  /**
   * The lookup is a single step: MissingFile falls back to
   * OrphanedSymbolicLink but never on to SymbolicLink, whatever that has.
   */
  lemma MissingNeverReachesLink(m: Mappings)
    requires MissingFile !in m.indicators && OrphanedSymbolicLink !in m.indicators
    ensures StyleForIndicator(m, MissingFile) == FirstConfigured(m.indicators, [Normal])
  {
    var r := StyleForIndicator(m, MissingFile);
    if r.Some? {
      var k :| 0 <= k < 3 && [MissingFile, OrphanedSymbolicLink, Normal][k] in m.indicators &&
        m.indicators[[MissingFile, OrphanedSymbolicLink, Normal][k]] == r.value;
      assert k == 2;
    }
  }

  // ---------------------------------------------------------------------
  // Suffix lookup

  /**
   * The style of the last suffix rule whose suffix ends `name` (the scan
   * from the back in `style_for_path_with_metadata`).
   */
  function SuffixStyle(rules: seq<(string, Style)>, name: string): (r: Option<Style>)
    ensures r.None? <==> forall k :: 0 <= k < |rules| ==> !EndsWith(name, rules[k].0)
    ensures r.Some? ==> exists k :: 0 <= k < |rules| && EndsWith(name, rules[k].0) && rules[k].1 == r.value &&
                                 (forall j :: k < j < |rules| ==> !EndsWith(name, rules[j].0))
    decreases |rules|
  {
    if |rules| == 0 then None
    else
      var last := rules[|rules| - 1];
      if EndsWith(name, last.0) then Some(last.1) else SuffixStyle(rules[..|rules| - 1], name)
  }

  /** Appending a rule whose suffix does not end the name does not change the lookup. */
  lemma SuffixStyleSkipsLast(rules: seq<(string, Style)>, rule: (string, Style), name: string)
    requires !EndsWith(name, rule.0)
    ensures SuffixStyle(rules + [rule], name) == SuffixStyle(rules, name)
  {
    assert (rules + [rule])[..|rules|] == rules;
  }

  /** A rule appended later wins over every earlier rule for a name it ends. */
  lemma SuffixStyleLatestWins(rules: seq<(string, Style)>, rule: (string, Style), name: string)
    requires EndsWith(name, rule.0)
    ensures SuffixStyle(rules + [rule], name) == Some(rule.1)
  {
  }

  /**
   * `style_for_path_with_metadata(path, metadata)` for a path whose file
   * name is `name` (`None` when it has none or it is not UTF-8).
   */
  function StyleForPath(m: Mappings, name: Option<string>, md: Option<Metadata>): (r: Option<Style>)
    ensures IndicatorFor(m, md) != RegularFile ==> r == StyleForIndicator(m, IndicatorFor(m, md))
    ensures IndicatorFor(m, md) == RegularFile && name.None? ==> r == None
    ensures IndicatorFor(m, md) == RegularFile && name.Some? ==>
      var s := SuffixStyle(m.suffixes, ToAsciiLower(name.value));
      r == (if s.Some? then s else StyleForIndicator(m, RegularFile))
  {
    var i := IndicatorFor(m, md);
    if i == RegularFile then
      match name
      case None => None
      case Some(n) =>
        match SuffixStyle(m.suffixes, ToAsciiLower(n))
        case Some(st) => Some(st)
        case None => StyleForIndicator(m, i)
    else StyleForIndicator(m, i)
  }

  /** File names are matched without regard to ASCII case. */
  lemma StyleForPathIgnoresCase(m: Mappings, n1: string, n2: string, md: Option<Metadata>)
    requires |n1| == |n2|
    requires forall k :: 0 <= k < |n1| ==> LowerChar(n1[k]) == LowerChar(n2[k])
    ensures StyleForPath(m, Some(n1), md) == StyleForPath(m, Some(n2), md)
  {
    LowerIgnoresCase(n1, n2);
  }

  // ---------------------------------------------------------------------
  // The object

  /** `LsColors`: the indicator table and the ordered suffix rules. */
  class LsColors {
    var indicatorMapping: map<Indicator, Style>
    var suffixMapping: seq<(string, Style)>

    /** The two tables as a value. */
    function Value(): Mappings
      reads this
    {
      Mappings(indicatorMapping, suffixMapping)
    }

    /** `LsColors::empty()`. */
    constructor Empty()
      ensures Value() == Registry.Empty
    {
      indicatorMapping := map[];
      suffixMapping := [];
    }

    /** `LsColors::default()`: the built-in configuration added to the empty tables. */
    constructor Default()
      ensures Value() == Added(Registry.Empty, LsColorsDefault)
    {
      indicatorMapping := map[];
      suffixMapping := [];
      new;
      AddFromString(LsColorsDefault);
    }

    /** `LsColors::from_string(input)`: `input` added on top of the built-in configuration. */
    constructor FromString(input: string)
      ensures Value() == Added(Added(Registry.Empty, LsColorsDefault), input)
    {
      indicatorMapping := map[];
      suffixMapping := [];
      new;
      AddFromString(LsColorsDefault);
      AddFromString(input);
    }

    /** `add_from_string(input)`: the entries of `input` applied in order. */
    method AddFromString(input: string)
      modifies this
      ensures Value() == Added(old(Value()), input)
    {
      var entries := Split(input, ':');
      var i := 0;
      while i < |entries|
        invariant 0 <= i <= |entries|
        invariant ApplyEntries(Value(), entries[i..]) == Added(old(Value()), input)
      {
        ApplyEntriesStep(Value(), entries, i);
        var parts := Split(entries[i], '=');
        if |parts| >= 2 {
          var key, value := parts[0], parts[1];
          var style := FromAnsiSequence(value);
          if |key| > 0 && key[0] == '*' {
            if style.Some? {
              suffixMapping := suffixMapping + [(ToAsciiLower(key[1..]), style.value)];
            }
          } else {
            var indicator := FromCode(key);
            if indicator.Some? {
              if style.Some? {
                indicatorMapping := indicatorMapping[indicator.value := style.value];
              } else {
                indicatorMapping := indicatorMapping - {indicator.value};
              }
            }
          }
        }
        i := i + 1;
      }
    }

    /**
     * `style_for_path_with_metadata(path, metadata)`: for a regular file,
     * the suffix rules are scanned from the last to the first and the first
     * match is returned; otherwise, or if none matches, the indicator style.
     */
    method StyleForPathWithMetadata(name: Option<string>, md: Option<Metadata>) returns (r: Option<Style>)
      ensures r == StyleForPath(Value(), name, md)
    {
      var indicator := IndicatorFor(Value(), md);
      if indicator == RegularFile {
        if name.None? {
          return None;
        }
        var filename := ToAsciiLower(name.value);
        var k := |suffixMapping|;
        while k > 0
          invariant 0 <= k <= |suffixMapping|
          invariant SuffixStyle(suffixMapping, filename) == SuffixStyle(suffixMapping[..k], filename)
        {
          var (suffix, style) := suffixMapping[k - 1];
          assert suffixMapping[..k][..k - 1] == suffixMapping[..k - 1];
          if EndsWith(filename, suffix) {
            return Some(style);
          }
          k := k - 1;
        }
      }
      r := StyleForIndicator(Value(), indicator);
    }
  }
}
