/**
 * The behaviour the tests of src/lib.rs exercise, stated for the tables the
 * model computes. Where a test expects something the code does not do, the
 * lemma states what the code does.
 */
module Scenarios {
  import opened Wrappers
  import opened Text
  import opened Styles
  import opened Indicators
  import opened Registry
  import opened Defaults
  import opened Colors
  import opened Components

  /** The tables of `LsColors::default()`, as far as the lookups below need them. */
  predicate DefaultLike(d: Mappings)
  {
    d.indicators == DefaultIndicatorStyles && DotSuffixes(d)
  }

  /** `LsColors::default()` has those tables. */
  lemma DefaultIsDefaultLike(s: string)
    requires s == LsColorsDefault
    ensures DefaultLike(Added(Empty, s))
  {
    DefaultTables(s);
  }

  /** A name without `.` ends with none of the suffixes of a default-like table. */
  lemma NoDotNoSuffix(d: Mappings, name: string)
    requires DotSuffixes(d) && '.' !in name
    ensures SuffixStyle(d.suffixes, name).None?
  {
  }

  /**
   * The default configuration styles directories bold blue and symbolic
   * links bold cyan, and has no style for plain files or `Normal`.
   */
  lemma DefaultIndicatorStylesUsed(d: Mappings)
    requires DefaultLike(d)
    ensures StyleForIndicator(d, Directory) == Some(Style(Some(Blue), None, BoldFont))
    ensures StyleForIndicator(d, SymbolicLink) == Some(Style(Some(Cyan), None, BoldFont))
    ensures StyleForIndicator(d, RegularFile) == None
    ensures !HasColorFor(d, RegularFile) && !HasColorFor(d, Indicator.Normal)
  {
  }

  /**
   * With the defaults, a regular file without set-id or execute bits, with
   * one link and with no `.` in its name, has no style at all.
   */
  lemma DefaultPlainFile(d: Mappings, name: string, md: Metadata)
    requires DefaultLike(d)
    requires md.kind == IsFile && md.mode & (SetuidBit | SetgidBit | ExecuteBits) == 0 && md.nlink <= 1
    requires '.' !in name
    ensures StyleForPath(d, Some(name), Some(md)) == None
  {
    assert md.mode & SetuidBit == 0 && md.mode & SetgidBit == 0 && md.mode & ExecuteBits == 0;
    assert IndicatorFor(d, Some(md)) == RegularFile;
    assert '.' !in ToAsciiLower(name) by {
      forall k | 0 <= k < |name| ensures ToAsciiLower(name)[k] != '.' {
        assert name[k] != '.';
      }
    }
    NoDotNoSuffix(d, ToAsciiLower(name));
    DefaultIndicatorStylesUsed(d);
  }

  // ---------------------------------------------------------------------
  // The values the scenarios use

  /** What the codes of the scenarios mean. */
  lemma ScenarioMeanings()
    ensures Interpret([0], Plain) == Style(None, None, DefaultFont)
    ensures Interpret([1], Plain) == Style(None, None, BoldFont)
    ensures Interpret([35], Plain) == Style(Some(Purple), None, DefaultFont)
    ensures Interpret([33, 44], Plain) == Style(Some(Yellow), Some(Blue), DefaultFont)
    ensures Interpret([1, 35], Plain) == Style(Some(Purple), None, BoldFont)
    ensures Interpret([34], Plain) == Style(Some(Blue), None, DefaultFont)
    ensures Interpret([36], Plain) == Style(Some(Cyan), None, DefaultFont)
  {
  }

  /** `0` and `00` parse to the all-default style: a style, not the absence of one. */
  lemma ZeroValue(value: string)
    requires value == "0" || value == "00"
    ensures ParseStyle(value) == Some(Style(None, None, DefaultFont))
  {
    if |value| == 1 {
      OneDigitCode(value, '0', 0);
    } else {
      TwoDigitCode(value, '0', '0', 0);
    }
    ScenarioMeanings();
  }

  /** `01` is bold. */
  lemma BoldValue(value: string)
    requires value == "01"
    ensures ParseStyle(value) == Some(Style(None, None, BoldFont))
  {
    TwoDigitCode(value, '0', '1', 1);
    ScenarioMeanings();
  }

  /** `35` is purple. */
  lemma PurpleValue(value: string)
    requires value == "35"
    ensures ParseStyle(value) == Some(Style(Some(Purple), None, DefaultFont))
  {
    TwoDigitCode(value, '3', '5', 35);
    ScenarioMeanings();
  }

  /** `34` is blue. */
  lemma BlueValue(value: string)
    requires value == "34"
    ensures ParseStyle(value) == Some(Style(Some(Blue), None, DefaultFont))
  {
    TwoDigitCode(value, '3', '4', 34);
    ScenarioMeanings();
  }

  /** `36` is cyan. */
  lemma CyanValue(value: string)
    requires value == "36"
    ensures ParseStyle(value) == Some(Style(Some(Cyan), None, DefaultFont))
  {
    TwoDigitCode(value, '3', '6', 36);
    ScenarioMeanings();
  }

  /** `33;44` is yellow on blue. */
  lemma YellowOnBlueValue(value: string)
    requires value == "33;44"
    ensures ParseStyle(value) == Some(Style(Some(Yellow), Some(Blue), DefaultFont))
  {
    TwoByTwoCode(value, '3', '3', '4', '4', 33, 44);
    ScenarioMeanings();
  }

  /** `01;35` is bold purple. */
  lemma BoldPurpleValue(value: string)
    requires value == "01;35"
    ensures ParseStyle(value) == Some(Style(Some(Purple), None, BoldFont))
  {
    TwoByTwoCode(value, '0', '1', '3', '5', 1, 35);
    ScenarioMeanings();
  }

  /** An entry with `=` at index 2 is its two-letter key, `=` and the rest. */
  lemma KeyShape(entry: string)
    requires |entry| >= 3 && entry[2] == '='
    ensures entry == entry[..2] + "=" + entry[3..]
  {
  }

  /** An entry that starts with `*` and has `=` at index `eq` is `*`, the suffix, `=` and the rest. */
  lemma SuffixShape(entry: string, eq: nat)
    requires 1 <= eq < |entry| && entry[0] == '*' && entry[eq] == '='
    ensures entry == "*" + entry[1..eq] + "=" + entry[eq + 1..]
  {
  }

  // ---------------------------------------------------------------------
  // The built-in configuration

  /** A directory that is neither sticky nor other-writable is bold blue. */
  lemma DefaultDirectory(d: Mappings, name: Option<string>, md: Metadata)
    requires DefaultLike(d)
    requires md.kind == IsDir && md.mode & (StickyBit | OtherWriteBit) == 0
    ensures StyleForPath(d, name, Some(md)) == Some(Style(Some(Blue), None, BoldFont))
  {
    assert md.mode & StickyBit == 0 && md.mode & OtherWriteBit == 0;
    DefaultIndicatorStylesUsed(d);
  }

  /** A symbolic link is bold cyan, or bold red on black when its target is missing. */
  lemma DefaultSymbolicLinks(d: Mappings, name: Option<string>, md: Metadata)
    requires DefaultLike(d)
    requires md.kind == IsSymlink
    ensures md.targetExists ==> StyleForPath(d, name, Some(md)) == Some(Style(Some(Cyan), None, BoldFont))
    ensures !md.targetExists ==> StyleForPath(d, name, Some(md)) == Some(Style(Some(Red), Some(Black), BoldFont))
  {
    DefaultIndicatorStylesUsed(d);
  }

  /** A set-user-id file (such as mode 0o6750) is white on red. */
  lemma DefaultSetuid(d: Mappings, name: Option<string>, md: Metadata)
    requires DefaultLike(d)
    requires md.kind == IsFile && md.mode & SetuidBit != 0
    ensures StyleForPath(d, name, Some(md)) == Some(Style(Some(White), Some(Red), DefaultFont))
  {
  }

  /** A sticky, other-writable directory (such as mode 0o1777) is black on green. */
  lemma DefaultStickyOtherWritable(d: Mappings, name: Option<string>, md: Metadata)
    requires DefaultLike(d)
    requires md.kind == IsDir && md.mode & (StickyBit | OtherWriteBit) == StickyBit | OtherWriteBit
    ensures StyleForPath(d, name, Some(md)) == Some(Style(Some(Black), Some(Green), DefaultFont))
  {
  }

  // ---------------------------------------------------------------------
  // Configuration strings added on top

  /** `ex=01:` sets executables to bold; the trailing empty entry is ignored. */
  lemma ExecutableConfig(input: string)
    requires input == "ex=01:"
    ensures AssignsAll(input, [(ExecutableFile, Style(None, None, BoldFont))])
  {
    var entry, value, rest := input[..5], input[3..5], input[6..];
    assert entry == Code(ExecutableFile) + "=" + value && rest == "";
    BoldValue(value);
    EntrySets(entry, ExecutableFile, value, Style(None, None, BoldFont));
    assert input == entry + ":" + rest;
    forall m: Mappings
      ensures Added(m, input) == Mappings(Assigned(m.indicators, [(ExecutableFile, Style(None, None, BoldFont))]), m.suffixes)
    {
      AddedPair(m, entry, rest);
      NoValueIgnored(ApplyEntry(m, entry), rest);
    }
  }

  /** On top of the defaults, `ex=01:` restyles executables and leaves directories bold blue. */
  lemma ExecutableEntryKeepsDirectory(d: Mappings, input: string)
    requires DefaultLike(d) && input == "ex=01:"
    ensures StyleForIndicator(Added(d, input), ExecutableFile) == Some(Style(None, None, BoldFont))
    ensures StyleForIndicator(Added(d, input), Directory) == Some(Style(Some(Blue), None, BoldFont))
  {
    ExecutableConfig(input);
    AssignedOne(d.indicators, ExecutableFile, Style(None, None, BoldFont));
    assert Added(d, input).indicators == d.indicators[ExecutableFile := Style(None, None, BoldFont)];
  }

  /** `su=0` sets set-user-id files to the all-default style. */
  lemma SetuidZeroConfig(input: string)
    requires input == "su=0"
    ensures AssignsAll(input, [(Setuid, Style(None, None, DefaultFont))])
  {
    var value := input[3..];
    assert input == Code(Setuid) + "=" + value;
    ZeroValue(value);
    EntrySets(input, Setuid, value, Style(None, None, DefaultFont));
    forall m: Mappings
      ensures Added(m, input) == Mappings(Assigned(m.indicators, [(Setuid, Style(None, None, DefaultFont))]), m.suffixes)
    {
      AddedSingle(m, input);
    }
  }

  /**
   * `su=0` does not unconfigure set-user-id files: `0` parses to a style,
   * so a set-user-id file keeps that indicator and gets the all-default
   * style, not the set-group-id style.
   */
  lemma ZeroKeepsSetuid(d: Mappings, input: string, md: Metadata)
    requires DefaultLike(d) && input == "su=0"
    requires md.kind == IsFile && md.mode & SetuidBit != 0
    ensures HasColorFor(Added(d, input), Setuid)
    ensures StyleForPath(Added(d, input), None, Some(md)) == Some(Style(None, None, DefaultFont))
  {
    SetuidZeroConfig(input);
    AssignedOne(d.indicators, Setuid, Style(None, None, DefaultFont));
    assert Added(d, input).indicators == d.indicators[Setuid := Style(None, None, DefaultFont)];
  }

  /** `tw=0` sets sticky, other-writable directories to the all-default style. */
  lemma StickyZeroConfig(input: string)
    requires input == "tw=0"
    ensures AssignsAll(input, [(StickyAndOtherWritable, Style(None, None, DefaultFont))])
  {
    var value := input[3..];
    assert input == Code(StickyAndOtherWritable) + "=" + value;
    ZeroValue(value);
    EntrySets(input, StickyAndOtherWritable, value, Style(None, None, DefaultFont));
    forall m: Mappings
      ensures Added(m, input) == Mappings(Assigned(m.indicators, [(StickyAndOtherWritable, Style(None, None, DefaultFont))]), m.suffixes)
    {
      AddedSingle(m, input);
    }
  }

  /** `tw=0` keeps sticky, other-writable directories on their own indicator, now unstyled. */
  lemma ZeroKeepsStickyOtherWritable(d: Mappings, input: string, md: Metadata)
    requires DefaultLike(d) && input == "tw=0"
    requires md.kind == IsDir && md.mode & (StickyBit | OtherWriteBit) == StickyBit | OtherWriteBit
    ensures StyleForPath(Added(d, input), None, Some(md)) == Some(Style(None, None, DefaultFont))
  {
    StickyZeroConfig(input);
    AssignedOne(d.indicators, StickyAndOtherWritable, Style(None, None, DefaultFont));
    assert Added(d, input).indicators == d.indicators[StickyAndOtherWritable := Style(None, None, DefaultFont)];
  }

  /** `xx=0` sets the indicator with key `xx` to the all-default style. */
  lemma ZeroEntry(entry: string, i: Indicator)
    requires |entry| == 4 && entry[..2] == Code(i) && entry[2..] == "=0"
    ensures Sets(entry, i, Style(None, None, DefaultFont))
  {
    var value := entry[3..];
    assert entry == Code(i) + "=" + value;
    ZeroValue(value);
    EntrySets(entry, i, value, Style(None, None, DefaultFont));
  }

  /** `tw=0:ow=0` sets both sticky, other-writable and other-writable directories to the all-default style. */
  lemma StickyOtherZeroConfig(input: string)
    requires input == "tw=0:ow=0"
    ensures AssignsAll(input, [(StickyAndOtherWritable, Style(None, None, DefaultFont)), (OtherWritable, Style(None, None, DefaultFont))])
  {
    var a, b := input[..4], input[5..];
    ZeroEntry(a, StickyAndOtherWritable);
    ZeroEntry(b, OtherWritable);
    assert input == a + ":" + b;
    SettingPair(input, a, b, StickyAndOtherWritable, Style(None, None, DefaultFont), OtherWritable, Style(None, None, DefaultFont));
  }

  /**
   * `tw=0:ow=0` leaves both indicators configured, so a sticky, other-writable
   * directory (0o1777) stays on StickyAndOtherWritable with the all-default
   * style; it reaches neither `ow` nor `st`.
   */
  lemma ZerosKeepStickyOtherWritable(d: Mappings, input: string, md: Metadata)
    requires DefaultLike(d) && input == "tw=0:ow=0"
    requires md.kind == IsDir && md.mode & (StickyBit | OtherWriteBit) == StickyBit | OtherWriteBit
    ensures HasColorFor(Added(d, input), StickyAndOtherWritable) && HasColorFor(Added(d, input), OtherWritable)
    ensures IndicatorFor(Added(d, input), Some(md)) == StickyAndOtherWritable
    ensures StyleForPath(Added(d, input), None, Some(md)) == Some(Style(None, None, DefaultFont))
  {
    var plain := Style(None, None, DefaultFont);
    StickyOtherZeroConfig(input);
    AssignedTwo(d.indicators, StickyAndOtherWritable, plain, OtherWritable, plain);
    assert Added(d, input).indicators == d.indicators[StickyAndOtherWritable := plain][OtherWritable := plain];
  }

  /** `mh=35` sets files with several hard links to purple. */
  lemma HardLinksConfig(input: string)
    requires input == "mh=35"
    ensures AssignsAll(input, [(MultipleHardLinks, Style(Some(Purple), None, DefaultFont))])
  {
    var value := input[3..];
    assert input == Code(MultipleHardLinks) + "=" + value;
    PurpleValue(value);
    EntrySets(input, MultipleHardLinks, value, Style(Some(Purple), None, DefaultFont));
    forall m: Mappings
      ensures Added(m, input) == Mappings(Assigned(m.indicators, [(MultipleHardLinks, Style(Some(Purple), None, DefaultFont))]), m.suffixes)
    {
      AddedSingle(m, input);
    }
  }

  /** With `mh=35`, a plain file with two links is purple. */
  lemma HardLinksPurple(d: Mappings, input: string, md: Metadata)
    requires DefaultLike(d) && input == "mh=35"
    requires md.kind == IsFile && md.mode & (SetuidBit | SetgidBit | ExecuteBits) == 0 && md.nlink > 1
    ensures StyleForPath(Added(d, input), None, Some(md)) == Some(Style(Some(Purple), None, DefaultFont))
  {
    HardLinksConfig(input);
    AssignedOne(d.indicators, MultipleHardLinks, Style(Some(Purple), None, DefaultFont));
    assert Added(d, input).indicators == d.indicators[MultipleHardLinks := Style(Some(Purple), None, DefaultFont)];
    assert md.mode & SetuidBit == 0 && md.mode & SetgidBit == 0 && md.mode & ExecuteBits == 0;
  }

  /** `mi=01` sets missing files to bold. */
  lemma BoldMissingEntry(entry: string)
    requires entry == "mi=01"
    ensures Sets(entry, MissingFile, Style(None, None, BoldFont))
  {
    KeyShape(entry);
    BoldValue(entry[3..]);
    EntrySets(entry, MissingFile, entry[3..], Style(None, None, BoldFont));
  }

  /** `or=33;44` sets orphaned links to yellow on blue. */
  lemma YellowOrphanEntry(entry: string)
    requires entry == "or=33;44"
    ensures Sets(entry, OrphanedSymbolicLink, Style(Some(Yellow), Some(Blue), DefaultFont))
  {
    KeyShape(entry);
    YellowOnBlueValue(entry[3..]);
    EntrySets(entry, OrphanedSymbolicLink, entry[3..], Style(Some(Yellow), Some(Blue), DefaultFont));
  }

  /** `mi=01:or=33;44` sets missing files to bold and orphaned links to yellow on blue. */
  lemma MissingOrphanConfig(input: string)
    requires input == "mi=01:or=33;44"
    ensures AssignsAll(input, [(MissingFile, Style(None, None, BoldFont)), (OrphanedSymbolicLink, Style(Some(Yellow), Some(Blue), DefaultFont))])
  {
    var a, b := input[..5], input[6..];
    BoldMissingEntry(a);
    YellowOrphanEntry(b);
    assert input == a + ":" + b;
    SettingPair(input, a, b, MissingFile, Style(None, None, BoldFont), OrphanedSymbolicLink, Style(Some(Yellow), Some(Blue), DefaultFont));
  }

  /** With `mi=01:or=33;44`, a missing file takes its own style, bold, over the fallback. */
  lemma MissingFileOwnStyle(m: Mappings, input: string)
    requires input == "mi=01:or=33;44"
    ensures StyleForIndicator(Added(m, input), MissingFile) == Some(Style(None, None, BoldFont))
  {
    MissingOrphanConfig(input);
    AssignedTwo(m.indicators, MissingFile, Style(None, None, BoldFont), OrphanedSymbolicLink, Style(Some(Yellow), Some(Blue), DefaultFont));
  }

  /** The configuration string `or=33;44` sets orphaned links to yellow on blue. */
  lemma OrphanConfig(input: string)
    requires input == "or=33;44"
    ensures AssignsAll(input, [(OrphanedSymbolicLink, Style(Some(Yellow), Some(Blue), DefaultFont))])
  {
    YellowOrphanEntry(input);
    forall m: Mappings
      ensures Added(m, input) == Mappings(Assigned(m.indicators, [(OrphanedSymbolicLink, Style(Some(Yellow), Some(Blue), DefaultFont))]), m.suffixes)
    {
      AddedSingle(m, input);
      AssignedOne(m.indicators, OrphanedSymbolicLink, Style(Some(Yellow), Some(Blue), DefaultFont));
    }
  }

  /**
   * With `or=33;44`, where MissingFile has no style, a missing file falls
   * back to the orphaned-link style. On top of the defaults it does not,
   * because the default configuration already styles MissingFile (`mi=00`).
   */
  lemma MissingFileFallback(m: Mappings, input: string)
    requires input == "or=33;44"
    ensures MissingFile !in m.indicators ==>
      StyleForIndicator(Added(m, input), MissingFile) == Some(Style(Some(Yellow), Some(Blue), DefaultFont))
    ensures DefaultLike(m) ==> StyleForIndicator(Added(m, input), MissingFile) == Some(Style(None, None, DefaultFont))
  {
    OrphanConfig(input);
    AssignedOne(m.indicators, OrphanedSymbolicLink, Style(Some(Yellow), Some(Blue), DefaultFont));
    assert Added(m, input).indicators == m.indicators[OrphanedSymbolicLink := Style(Some(Yellow), Some(Blue), DefaultFont)];
  }

  /** `or=33;44:mi=00` sets orphaned links to yellow on blue, then missing files to the all-default style. */
  lemma OrphanZeroMissingConfig(input: string)
    requires input == "or=33;44:mi=00"
    ensures AssignsAll(input, [(OrphanedSymbolicLink, Style(Some(Yellow), Some(Blue), DefaultFont)), (MissingFile, Style(None, None, DefaultFont))])
  {
    var a, b := input[..8], input[9..];
    YellowOrphanEntry(a);
    KeyShape(b);
    ZeroValue(b[3..]);
    EntrySets(b, MissingFile, b[3..], Style(None, None, DefaultFont));
    assert input == a + ":" + b;
    SettingPair(input, a, b, OrphanedSymbolicLink, Style(Some(Yellow), Some(Blue), DefaultFont), MissingFile, Style(None, None, DefaultFont));
  }

  /**
   * With `or=33;44:mi=00`, MissingFile is configured with the all-default
   * style, so it never falls back to the orphaned-link style, whatever the
   * tables the string is added to.
   */
  lemma ZeroMissingNoFallback(m: Mappings, input: string)
    requires input == "or=33;44:mi=00"
    ensures HasColorFor(Added(m, input), MissingFile)
    ensures StyleForIndicator(Added(m, input), MissingFile) == Some(Style(None, None, DefaultFont))
  {
    OrphanZeroMissingConfig(input);
    AssignedTwo(m.indicators, OrphanedSymbolicLink, Style(Some(Yellow), Some(Blue), DefaultFont), MissingFile, Style(None, None, DefaultFont));
  }

  /** `*.foo=01;35` appends `.foo`, bold purple. */
  lemma FooEntry(entry: string)
    requires entry == "*.foo=01;35"
    ensures Appends(entry, ".foo", Style(Some(Purple), None, BoldFont))
  {
    SuffixShape(entry, 5);
    BoldPurpleValue(entry[6..]);
    EntryAppends(entry, entry[1..5], entry[6..], Style(Some(Purple), None, BoldFont));
    assert ToAsciiLower(entry[1..5]) == ".foo";
  }

  /** `*README.foo=33;44` appends `readme.foo`, yellow on blue. */
  lemma ReadmeFooEntry(entry: string)
    requires entry == "*README.foo=33;44"
    ensures Appends(entry, "readme.foo", Style(Some(Yellow), Some(Blue), DefaultFont))
  {
    var suffix, value := entry[1..11], entry[12..];
    assert entry == "*" + suffix + "=" + value by { SuffixShape(entry, 11); }
    assert ParseStyle(value) == Some(Style(Some(Yellow), Some(Blue), DefaultFont)) by { YellowOnBlueValue(value); }
    assert ToAsciiLower(suffix) == "readme.foo";
    EntryAppends(entry, suffix, value, Style(Some(Yellow), Some(Blue), DefaultFont));
  }

  /** `*.foo=01;35:*README.foo=33;44` appends `.foo` (bold purple), then `readme.foo` (yellow on blue). */
  lemma FooConfig(input: string)
    requires input == "*.foo=01;35:*README.foo=33;44"
    ensures AppendsAll(input, [(".foo", Style(Some(Purple), None, BoldFont)), ("readme.foo", Style(Some(Yellow), Some(Blue), DefaultFont))])
  {
    var a, b := input[..11], input[12..];
    FooEntry(a);
    ReadmeFooEntry(b);
    assert input == a + ":" + b;
    AppendingPair(input, a, b, ".foo", Style(Some(Purple), None, BoldFont), "readme.foo", Style(Some(Yellow), Some(Blue), DefaultFont));
  }

  /** With `*.foo=01;35:*README.foo=33;44`, the later rule wins for `README.foo`, and the earlier one still styles `dummy.foo`. */
  lemma SuffixOrdering(m: Mappings, input: string, dummy: string, readme: string)
    requires input == "*.foo=01;35:*README.foo=33;44"
    requires dummy == "dummy.foo" && readme == "README.foo"
    ensures StyleForPath(Added(m, input), Some(dummy), None) == Some(Style(Some(Purple), None, BoldFont))
    ensures StyleForPath(Added(m, input), Some(readme), None) == Some(Style(Some(Yellow), Some(Blue), DefaultFont))
  {
    FooConfig(input);
    var purple, yellow := Style(Some(Purple), None, BoldFont), Style(Some(Yellow), Some(Blue), DefaultFont);
    var rules := m.suffixes + [(".foo", purple)];
    assert Added(m, input).suffixes == rules + [("readme.foo", yellow)];
    assert ToAsciiLower(dummy) == dummy && ToAsciiLower(readme) == "readme.foo";
    assert !EndsWith(dummy, "readme.foo");
    SuffixStyleSkipsLast(rules, ("readme.foo", yellow), dummy);
    SuffixStyleLatestWins(m.suffixes, (".foo", purple), dummy);
    SuffixStyleLatestWins(rules, ("readme.foo", yellow), "readme.foo");
  }

  /** `*.O=01;35` appends the lower-cased suffix `.o`, bold purple. */
  lemma UpperSuffixConfig(input: string)
    requires input == "*.O=01;35"
    ensures AppendsAll(input, [(".o", Style(Some(Purple), None, BoldFont))])
  {
    var suffix, value := input[1..3], input[4..];
    assert input == "*" + suffix + "=" + value;
    BoldPurpleValue(value);
    EntryAppends(input, suffix, value, Style(Some(Purple), None, BoldFont));
    assert ToAsciiLower(suffix) == ".o";
    forall m: Mappings
      ensures Added(m, input) == Mappings(m.indicators, m.suffixes + [(".o", Style(Some(Purple), None, BoldFont))])
    {
      AddedSingle(m, input);
    }
  }

  /** With `*.O=01;35`, suffixes are matched without regard to case, so `artifact.o` is bold purple. */
  lemma SuffixIgnoresCase(m: Mappings, input: string, name: string)
    requires input == "*.O=01;35" && name == "artifact.o"
    ensures StyleForPath(Added(m, input), Some(name), None) == Some(Style(Some(Purple), None, BoldFont))
  {
    UpperSuffixConfig(input);
    assert Added(m, input).suffixes == m.suffixes + [(".o", Style(Some(Purple), None, BoldFont))];
    assert ToAsciiLower(name) == name;
    SuffixStyleLatestWins(m.suffixes, (".o", Style(Some(Purple), None, BoldFont)), name);
  }

  // ---------------------------------------------------------------------
  // Path components

  /** `di=34` sets directories to blue. */
  lemma BlueDirectoryEntry(entry: string)
    requires entry == "di=34"
    ensures Sets(entry, Directory, Style(Some(Blue), None, DefaultFont))
  {
    KeyShape(entry);
    BlueValue(entry[3..]);
    EntrySets(entry, Directory, entry[3..], Style(Some(Blue), None, DefaultFont));
  }

  /** `ln=35` sets symbolic links to purple. */
  lemma PurpleLinkEntry(entry: string)
    requires entry == "ln=35"
    ensures Sets(entry, SymbolicLink, Style(Some(Purple), None, DefaultFont))
  {
    KeyShape(entry);
    PurpleValue(entry[3..]);
    EntrySets(entry, SymbolicLink, entry[3..], Style(Some(Purple), None, DefaultFont));
  }

  /** `*.png=36` appends `.png`, cyan. */
  lemma PngEntry(entry: string)
    requires entry == "*.png=36"
    ensures Appends(entry, ".png", Style(Some(Cyan), None, DefaultFont))
  {
    SuffixShape(entry, 5);
    CyanValue(entry[6..]);
    EntryAppends(entry, entry[1..5], entry[6..], Style(Some(Cyan), None, DefaultFont));
    assert ToAsciiLower(entry[1..5]) == ".png";
  }

  /** Two indicator assignments followed by one suffix rule. */
  lemma AssignsThenAppends(m: Mappings, input: string, x: string, y: string,
                           i: Indicator, st: Style, j: Indicator, st2: Style, suffix: string, st3: Style)
    requires input == x + ":" + y && ':' !in y
    requires AssignsAll(x, [(i, st), (j, st2)]) && Appends(y, suffix, st3)
    ensures Added(m, input) == Mappings(m.indicators[i := st][j := st2], m.suffixes + [(suffix, st3)])
  {
    AddedConcat(m, x, y);
    var m1 := Added(m, x);
    AssignedTwo(m.indicators, i, st, j, st2);
    assert m1 == Mappings(m.indicators[i := st][j := st2], m.suffixes);
    AddedSingle(m1, y);
  }

  /** `di=34:ln=35:*.png=36`: directories blue, symbolic links purple, then a `.png` rule in cyan. */
  lemma ComponentsConfig(input: string, m: Mappings)
    requires input == "di=34:ln=35:*.png=36"
    ensures Added(m, input) == Mappings(
      m.indicators[Directory := Style(Some(Blue), None, DefaultFont)][SymbolicLink := Style(Some(Purple), None, DefaultFont)],
      m.suffixes + [(".png", Style(Some(Cyan), None, DefaultFont))])
  {
    var blue, purple, cyan := Style(Some(Blue), None, DefaultFont), Style(Some(Purple), None, DefaultFont), Style(Some(Cyan), None, DefaultFont);
    var x, y := input[..11], input[12..];
    var a, b := input[..5], input[6..11];
    assert a == "di=34" && b == "ln=35" && y == "*.png=36";
    assert Sets(a, Directory, blue) by { BlueDirectoryEntry(a); }
    assert Sets(b, SymbolicLink, purple) by { PurpleLinkEntry(b); }
    assert Appends(y, ".png", cyan) by { PngEntry(y); }
    assert x == a + ":" + b && ':' !in a && ':' !in b;
    SettingPair(x, a, b, Directory, blue, SymbolicLink, purple);
    assert input == x + ":" + y && ':' !in y;
    AssignsThenAppends(m, input, x, y, Directory, blue, SymbolicLink, purple, ".png", cyan);
  }

  /**
   * The three styles of the path-components test, on top of the defaults.
   * `test-file.png` is looked up with no metadata: the path through the link
   * names no file, so `symlink_metadata` fails and the classifier falls back
   * to RegularFile, which still consults the suffix rules.
   */
  lemma ComponentStyles(d: Mappings, input: string, dirName: string, dirMd: Metadata, linkMd: Metadata)
    requires DefaultLike(d) && input == "di=34:ln=35:*.png=36"
    requires dirMd.kind == IsDir && dirMd.mode & (StickyBit | OtherWriteBit) == 0
    requires linkMd.kind == IsSymlink && linkMd.targetExists
    ensures StyleForPath(Added(d, input), Some(dirName), Some(dirMd)) == Some(Style(Some(Blue), None, DefaultFont))
    ensures StyleForPath(Added(d, input), Some("test-symlink"), Some(linkMd)) == Some(Style(Some(Purple), None, DefaultFont))
    ensures StyleForPath(Added(d, input), Some("test-file.png"), None) == Some(Style(Some(Cyan), None, DefaultFont))
  {
    var cyan := Style(Some(Cyan), None, DefaultFont);
    ComponentsConfig(input, d);
    var m := Added(d, input);
    assert dirMd.mode & StickyBit == 0 && dirMd.mode & OtherWriteBit == 0;
    assert ToAsciiLower("test-file.png") == "test-file.png";
    SuffixStyleLatestWins(d.suffixes, (".png", cyan), "test-file.png");
  }

  /**
   * The items of a path that ends in `test-symlink` and `test-file.png`: the
   * last three are the enclosing directory, `test-symlink/` and
   * `test-file.png`, each styled by the lookup of its own prefix.
   */
  lemma ComponentItems(styleFor: seq<Component> -> Option<Style>, root: seq<Component>, path: seq<Component>)
    requires |root| >= 1
    requires path == root + [Component.Normal("test-symlink"), Component.Normal("test-file.png")]
    ensures |PathItems(styleFor, path)| == |root| + 2
    ensures PathItems(styleFor, path)[|root| - 1].1 == styleFor(root)
    ensures PathItems(styleFor, path)[|root|] == ("test-symlink/", styleFor(root + [Component.Normal("test-symlink")]))
    ensures PathItems(styleFor, path)[|root| + 1] == ("test-file.png", styleFor(path))
  {
    var n := |root|;
    PathItemsAt(styleFor, path, n - 1);
    PathItemsAt(styleFor, path, n);
    PathItemsAt(styleFor, path, n + 1);
    assert path[..n] == root && path[..n + 1] == root + [Component.Normal("test-symlink")] && path[..n + 2] == path;
    assert Label(path[n], true) == "test-symlink/";
  }

  /**
   * The path-components test: a temporary directory `root` holding a
   * directory, a symbolic link `test-symlink` to that directory and a file
   * `test-file.png`; the path styled is `root/test-symlink/test-file.png`,
   * which does not exist, so its lookup has no metadata. With
   * `di=34:ln=35:*.png=36` on top of the defaults, the last three items are
   * the directory in blue, `test-symlink/` in purple and `test-file.png` in
   * cyan. `styleFor` is the style lookup of each prefix, given the metadata
   * the file system reports for it.
   */
  lemma PathComponentsScenario(d: Mappings, input: string, root: seq<Component>, path: seq<Component>, dirName: string,
                               styleFor: seq<Component> -> Option<Style>, dirMd: Metadata, linkMd: Metadata)
    requires DefaultLike(d) && input == "di=34:ln=35:*.png=36"
    requires |root| >= 1 && path == root + [Component.Normal("test-symlink"), Component.Normal("test-file.png")]
    requires dirMd.kind == IsDir && dirMd.mode & (StickyBit | OtherWriteBit) == 0
    requires linkMd.kind == IsSymlink && linkMd.targetExists
    requires styleFor(root) == StyleForPath(Added(d, input), Some(dirName), Some(dirMd))
    requires styleFor(root + [Component.Normal("test-symlink")]) == StyleForPath(Added(d, input), Some("test-symlink"), Some(linkMd))
    requires styleFor(path) == StyleForPath(Added(d, input), Some("test-file.png"), None)
    ensures |PathItems(styleFor, path)| == |root| + 2
    ensures PathItems(styleFor, path)[|root| - 1].1 == Some(Style(Some(Blue), None, DefaultFont))
    ensures PathItems(styleFor, path)[|root|] == ("test-symlink/", Some(Style(Some(Purple), None, DefaultFont)))
    ensures PathItems(styleFor, path)[|root| + 1] == ("test-file.png", Some(Style(Some(Cyan), None, DefaultFont)))
  {
    ComponentStyles(d, input, dirName, dirMd, linkMd);
    ComponentItems(styleFor, root, path);
  }
}
