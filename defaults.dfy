/**
 * The built-in configuration `LS_COLORS_DEFAULT` of src/lib.rs and the
 * indicator table it produces. The string is the `:`-join of its entries: 18
 * indicator entries followed by the suffix entries, the last of which is the
 * empty entry after the final `:`.
 */
module Defaults {
  import opened Wrappers
  import opened Text
  import opened Styles
  import opened Indicators
  import opened Registry

  const DefaultIndicatorEntries: seq<string> := [
    "rs=0", "di=01;34", "ln=01;36", "mh=00", "pi=40;33", "so=01;35", "do=01;35", "bd=40;33;01",
    "cd=40;33;01", "or=40;31;01", "mi=00", "su=37;41", "sg=30;43", "ca=30;41", "tw=30;42",
    "ow=34;42", "st=37;44", "ex=01;32"
  ]

  // The suffix entries, in four runs of 28 (short literals keep the proofs
  // about them cheap). The last entry is the empty one after the final `:`.
  const SuffixRun1: seq<string> := [
    "*.tar=01;31", "*.tgz=01;31", "*.arc=01;31", "*.arj=01;31", "*.taz=01;31", "*.lha=01;31", "*.lz4=01;31",
    "*.lzh=01;31", "*.lzma=01;31", "*.tlz=01;31", "*.txz=01;31", "*.tzo=01;31", "*.t7z=01;31", "*.zip=01;31",
    "*.z=01;31", "*.dz=01;31", "*.gz=01;31", "*.lrz=01;31", "*.lz=01;31", "*.lzo=01;31", "*.xz=01;31",
    "*.zst=01;31", "*.tzst=01;31", "*.bz2=01;31", "*.bz=01;31", "*.tbz=01;31", "*.tbz2=01;31", "*.tz=01;31"
  ]

  const SuffixRun2: seq<string> := [
    "*.deb=01;31", "*.rpm=01;31", "*.jar=01;31", "*.war=01;31", "*.ear=01;31", "*.sar=01;31", "*.rar=01;31",
    "*.alz=01;31", "*.ace=01;31", "*.zoo=01;31", "*.cpio=01;31", "*.7z=01;31", "*.rz=01;31", "*.cab=01;31",
    "*.wim=01;31", "*.swm=01;31", "*.dwm=01;31", "*.esd=01;31", "*.jpg=01;35", "*.jpeg=01;35", "*.mjpg=01;35",
    "*.mjpeg=01;35", "*.gif=01;35", "*.bmp=01;35", "*.pbm=01;35", "*.pgm=01;35", "*.ppm=01;35", "*.tga=01;35"
  ]

  const SuffixRun3: seq<string> := [
    "*.xbm=01;35", "*.xpm=01;35", "*.tif=01;35", "*.tiff=01;35", "*.png=01;35", "*.svg=01;35", "*.svgz=01;35",
    "*.mng=01;35", "*.pcx=01;35", "*.mov=01;35", "*.mpg=01;35", "*.mpeg=01;35", "*.m2v=01;35", "*.mkv=01;35",
    "*.webm=01;35", "*.ogm=01;35", "*.mp4=01;35", "*.m4v=01;35", "*.mp4v=01;35", "*.vob=01;35", "*.qt=01;35",
    "*.nuv=01;35", "*.wmv=01;35", "*.asf=01;35", "*.rm=01;35", "*.rmvb=01;35", "*.flc=01;35", "*.avi=01;35"
  ]

  const SuffixRun4: seq<string> := [
    "*.fli=01;35", "*.flv=01;35", "*.gl=01;35", "*.dl=01;35", "*.xcf=01;35", "*.xwd=01;35", "*.yuv=01;35",
    "*.cgm=01;35", "*.emf=01;35", "*.ogv=01;35", "*.ogx=01;35", "*.aac=00;36", "*.au=00;36", "*.flac=00;36",
    "*.m4a=00;36", "*.mid=00;36", "*.midi=00;36", "*.mka=00;36", "*.mp3=00;36", "*.mpc=00;36", "*.ogg=00;36",
    "*.ra=00;36", "*.wav=00;36", "*.oga=00;36", "*.opus=00;36", "*.spx=00;36", "*.xspf=00;36", ""
  ]

  const DefaultSuffixEntries: seq<string> := SuffixRun1 + SuffixRun2 + SuffixRun3 + SuffixRun4

  /** `LS_COLORS_DEFAULT`. */
  const LsColorsDefault: string := Join(DefaultIndicatorEntries + DefaultSuffixEntries, ':')

  /** The indicator styles of the built-in configuration. */
  const DefaultIndicatorStyles: map<Indicator, Style> := map[
    Reset := Style(None, None, DefaultFont),
    Directory := Style(Some(Blue), None, BoldFont),
    SymbolicLink := Style(Some(Cyan), None, BoldFont),
    MultipleHardLinks := Style(None, None, DefaultFont),
    FIFO := Style(Some(Yellow), Some(Black), DefaultFont),
    Socket := Style(Some(Purple), None, BoldFont),
    Door := Style(Some(Purple), None, BoldFont),
    BlockDevice := Style(Some(Yellow), Some(Black), BoldFont),
    CharacterDevice := Style(Some(Yellow), Some(Black), BoldFont),
    OrphanedSymbolicLink := Style(Some(Red), Some(Black), BoldFont),
    MissingFile := Style(None, None, DefaultFont),
    Setuid := Style(Some(White), Some(Red), DefaultFont),
    Setgid := Style(Some(Black), Some(Yellow), DefaultFont),
    Capabilities := Style(Some(Black), Some(Red), DefaultFont),
    StickyAndOtherWritable := Style(Some(Black), Some(Green), DefaultFont),
    OtherWritable := Style(Some(Blue), Some(Green), DefaultFont),
    Sticky := Style(Some(White), Some(Blue), DefaultFont),
    ExecutableFile := Style(Some(Green), None, BoldFont)
  ]

  // What the codes of the indicator entries mean, in three groups.

  lemma DefaultCodeMeanings1()
    ensures Interpret([0], Plain) == Style(None, None, DefaultFont)
    ensures Interpret([1, 34], Plain) == Style(Some(Blue), None, BoldFont)
    ensures Interpret([1, 36], Plain) == Style(Some(Cyan), None, BoldFont)
    ensures Interpret([40, 33], Plain) == Style(Some(Yellow), Some(Black), DefaultFont)
    ensures Interpret([1, 35], Plain) == Style(Some(Purple), None, BoldFont)
  {
  }

  lemma DefaultCodeMeanings2()
    ensures Interpret([40, 33, 1], Plain) == Style(Some(Yellow), Some(Black), BoldFont)
    ensures Interpret([40, 31, 1], Plain) == Style(Some(Red), Some(Black), BoldFont)
    ensures Interpret([37, 41], Plain) == Style(Some(White), Some(Red), DefaultFont)
    ensures Interpret([30, 43], Plain) == Style(Some(Black), Some(Yellow), DefaultFont)
    ensures Interpret([30, 41], Plain) == Style(Some(Black), Some(Red), DefaultFont)
  {
  }

  lemma DefaultCodeMeanings3()
    ensures Interpret([30, 42], Plain) == Style(Some(Black), Some(Green), DefaultFont)
    ensures Interpret([34, 42], Plain) == Style(Some(Blue), Some(Green), DefaultFont)
    ensures Interpret([37, 44], Plain) == Style(Some(White), Some(Blue), DefaultFont)
    ensures Interpret([1, 32], Plain) == Style(Some(Green), None, BoldFont)
  {
  }

  // What each indicator entry does, whatever the tables it is applied to.

  /** `40;33;01`, the code of the device entries. */
  lemma YellowOnBlackBold(value: string)
    requires value == "40;33;01"
    ensures ParseStyle(value) == Some(Style(Some(Yellow), Some(Black), BoldFont))
  {
    ThreeByTwoCode(value, '4', '0', '3', '3', '0', '1', 40, 33, 1);
    DefaultCodeMeanings2();
  }

  /** `40;31;01`, the code of the `or` entry. */
  lemma RedOnBlackBold(value: string)
    requires value == "40;31;01"
    ensures ParseStyle(value) == Some(Style(Some(Red), Some(Black), BoldFont))
  {
    ThreeByTwoCode(value, '4', '0', '3', '1', '0', '1', 40, 31, 1);
    DefaultCodeMeanings2();
  }

  /** `rs=0`. */
  lemma DefaultResetEntry(entry: string, value: string)
    requires entry == "rs=0" && value == "0"
    ensures Sets(entry, Reset, Style(None, None, DefaultFont))
  {
    assert ParseStyle(value) == Some(Style(None, None, DefaultFont)) by {
      OneDigitCode(value, '0', 0);
      DefaultCodeMeanings1();
    }
    EntrySets(entry, Reset, value, Style(None, None, DefaultFont));
  }

  /** `di=01;34`. */
  lemma DefaultDirectoryEntry(entry: string, value: string)
    requires entry == "di=01;34" && value == "01;34"
    ensures Sets(entry, Directory, Style(Some(Blue), None, BoldFont))
  {
    assert ParseStyle(value) == Some(Style(Some(Blue), None, BoldFont)) by {
      TwoByTwoCode(value, '0', '1', '3', '4', 1, 34);
      DefaultCodeMeanings1();
    }
    EntrySets(entry, Directory, value, Style(Some(Blue), None, BoldFont));
  }

  /** `ln=01;36`. */
  lemma DefaultSymbolicLinkEntry(entry: string, value: string)
    requires entry == "ln=01;36" && value == "01;36"
    ensures Sets(entry, SymbolicLink, Style(Some(Cyan), None, BoldFont))
  {
    assert ParseStyle(value) == Some(Style(Some(Cyan), None, BoldFont)) by {
      TwoByTwoCode(value, '0', '1', '3', '6', 1, 36);
      DefaultCodeMeanings1();
    }
    EntrySets(entry, SymbolicLink, value, Style(Some(Cyan), None, BoldFont));
  }

  /** `mh=00`. */
  lemma DefaultMultipleHardLinksEntry(entry: string, value: string)
    requires entry == "mh=00" && value == "00"
    ensures Sets(entry, MultipleHardLinks, Style(None, None, DefaultFont))
  {
    assert ParseStyle(value) == Some(Style(None, None, DefaultFont)) by {
      TwoDigitCode(value, '0', '0', 0);
      DefaultCodeMeanings1();
    }
    EntrySets(entry, MultipleHardLinks, value, Style(None, None, DefaultFont));
  }

  /** `pi=40;33`. */
  lemma DefaultFIFOEntry(entry: string, value: string)
    requires entry == "pi=40;33" && value == "40;33"
    ensures Sets(entry, FIFO, Style(Some(Yellow), Some(Black), DefaultFont))
  {
    assert ParseStyle(value) == Some(Style(Some(Yellow), Some(Black), DefaultFont)) by {
      TwoByTwoCode(value, '4', '0', '3', '3', 40, 33);
      DefaultCodeMeanings1();
    }
    EntrySets(entry, FIFO, value, Style(Some(Yellow), Some(Black), DefaultFont));
  }

  /** `so=01;35`. */
  lemma DefaultSocketEntry(entry: string, value: string)
    requires entry == "so=01;35" && value == "01;35"
    ensures Sets(entry, Socket, Style(Some(Purple), None, BoldFont))
  {
    assert ParseStyle(value) == Some(Style(Some(Purple), None, BoldFont)) by {
      TwoByTwoCode(value, '0', '1', '3', '5', 1, 35);
      DefaultCodeMeanings1();
    }
    EntrySets(entry, Socket, value, Style(Some(Purple), None, BoldFont));
  }

  /** `do=01;35`. */
  lemma DefaultDoorEntry(entry: string, value: string)
    requires entry == "do=01;35" && value == "01;35"
    ensures Sets(entry, Door, Style(Some(Purple), None, BoldFont))
  {
    assert ParseStyle(value) == Some(Style(Some(Purple), None, BoldFont)) by {
      TwoByTwoCode(value, '0', '1', '3', '5', 1, 35);
      DefaultCodeMeanings1();
    }
    EntrySets(entry, Door, value, Style(Some(Purple), None, BoldFont));
  }

  /** `bd=40;33;01`. */
  lemma DefaultBlockDeviceEntry(entry: string, value: string)
    requires entry == "bd=40;33;01" && value == "40;33;01"
    ensures Sets(entry, BlockDevice, Style(Some(Yellow), Some(Black), BoldFont))
  {
    YellowOnBlackBold(value);
    EntrySets(entry, BlockDevice, value, Style(Some(Yellow), Some(Black), BoldFont));
  }

  /** `cd=40;33;01`. */
  lemma DefaultCharacterDeviceEntry(entry: string, value: string)
    requires entry == "cd=40;33;01" && value == "40;33;01"
    ensures Sets(entry, CharacterDevice, Style(Some(Yellow), Some(Black), BoldFont))
  {
    YellowOnBlackBold(value);
    EntrySets(entry, CharacterDevice, value, Style(Some(Yellow), Some(Black), BoldFont));
  }

  /** `or=40;31;01`. */
  lemma DefaultOrphanedSymbolicLinkEntry(entry: string, value: string)
    requires entry == "or=40;31;01" && value == "40;31;01"
    ensures Sets(entry, OrphanedSymbolicLink, Style(Some(Red), Some(Black), BoldFont))
  {
    RedOnBlackBold(value);
    EntrySets(entry, OrphanedSymbolicLink, value, Style(Some(Red), Some(Black), BoldFont));
  }

  /** `mi=00`. */
  lemma DefaultMissingFileEntry(entry: string, value: string)
    requires entry == "mi=00" && value == "00"
    ensures Sets(entry, MissingFile, Style(None, None, DefaultFont))
  {
    assert ParseStyle(value) == Some(Style(None, None, DefaultFont)) by {
      TwoDigitCode(value, '0', '0', 0);
      DefaultCodeMeanings1();
    }
    EntrySets(entry, MissingFile, value, Style(None, None, DefaultFont));
  }

  /** `su=37;41`. */
  lemma DefaultSetuidEntry(entry: string, value: string)
    requires entry == "su=37;41" && value == "37;41"
    ensures Sets(entry, Setuid, Style(Some(White), Some(Red), DefaultFont))
  {
    assert ParseStyle(value) == Some(Style(Some(White), Some(Red), DefaultFont)) by {
      TwoByTwoCode(value, '3', '7', '4', '1', 37, 41);
      DefaultCodeMeanings2();
    }
    EntrySets(entry, Setuid, value, Style(Some(White), Some(Red), DefaultFont));
  }

  /** `sg=30;43`. */
  lemma DefaultSetgidEntry(entry: string, value: string)
    requires entry == "sg=30;43" && value == "30;43"
    ensures Sets(entry, Setgid, Style(Some(Black), Some(Yellow), DefaultFont))
  {
    assert ParseStyle(value) == Some(Style(Some(Black), Some(Yellow), DefaultFont)) by {
      TwoByTwoCode(value, '3', '0', '4', '3', 30, 43);
      DefaultCodeMeanings2();
    }
    EntrySets(entry, Setgid, value, Style(Some(Black), Some(Yellow), DefaultFont));
  }

  /** `ca=30;41`. */
  lemma DefaultCapabilitiesEntry(entry: string, value: string)
    requires entry == "ca=30;41" && value == "30;41"
    ensures Sets(entry, Capabilities, Style(Some(Black), Some(Red), DefaultFont))
  {
    assert ParseStyle(value) == Some(Style(Some(Black), Some(Red), DefaultFont)) by {
      TwoByTwoCode(value, '3', '0', '4', '1', 30, 41);
      DefaultCodeMeanings2();
    }
    EntrySets(entry, Capabilities, value, Style(Some(Black), Some(Red), DefaultFont));
  }

  /** `tw=30;42`. */
  lemma DefaultStickyAndOtherWritableEntry(entry: string, value: string)
    requires entry == "tw=30;42" && value == "30;42"
    ensures Sets(entry, StickyAndOtherWritable, Style(Some(Black), Some(Green), DefaultFont))
  {
    assert ParseStyle(value) == Some(Style(Some(Black), Some(Green), DefaultFont)) by {
      TwoByTwoCode(value, '3', '0', '4', '2', 30, 42);
      DefaultCodeMeanings3();
    }
    EntrySets(entry, StickyAndOtherWritable, value, Style(Some(Black), Some(Green), DefaultFont));
  }

  /** `ow=34;42`. */
  lemma DefaultOtherWritableEntry(entry: string, value: string)
    requires entry == "ow=34;42" && value == "34;42"
    ensures Sets(entry, OtherWritable, Style(Some(Blue), Some(Green), DefaultFont))
  {
    assert ParseStyle(value) == Some(Style(Some(Blue), Some(Green), DefaultFont)) by {
      TwoByTwoCode(value, '3', '4', '4', '2', 34, 42);
      DefaultCodeMeanings3();
    }
    EntrySets(entry, OtherWritable, value, Style(Some(Blue), Some(Green), DefaultFont));
  }

  /** `st=37;44`. */
  lemma DefaultStickyEntry(entry: string, value: string)
    requires entry == "st=37;44" && value == "37;44"
    ensures Sets(entry, Sticky, Style(Some(White), Some(Blue), DefaultFont))
  {
    assert ParseStyle(value) == Some(Style(Some(White), Some(Blue), DefaultFont)) by {
      TwoByTwoCode(value, '3', '7', '4', '4', 37, 44);
      DefaultCodeMeanings3();
    }
    EntrySets(entry, Sticky, value, Style(Some(White), Some(Blue), DefaultFont));
  }

  /** `ex=01;32`. */
  lemma DefaultExecutableFileEntry(entry: string, value: string)
    requires entry == "ex=01;32" && value == "01;32"
    ensures Sets(entry, ExecutableFile, Style(Some(Green), None, BoldFont))
  {
    assert ParseStyle(value) == Some(Style(Some(Green), None, BoldFont)) by {
      TwoByTwoCode(value, '0', '1', '3', '2', 1, 32);
      DefaultCodeMeanings3();
    }
    EntrySets(entry, ExecutableFile, value, Style(Some(Green), None, BoldFont));
  }

  /** The indicator entries of the built-in configuration, as assignments in order. */
  const DefaultIndicatorRules: seq<(Indicator, Style)> := [
    (Reset, Style(None, None, DefaultFont)),
    (Directory, Style(Some(Blue), None, BoldFont)),
    (SymbolicLink, Style(Some(Cyan), None, BoldFont)),
    (MultipleHardLinks, Style(None, None, DefaultFont)),
    (FIFO, Style(Some(Yellow), Some(Black), DefaultFont)),
    (Socket, Style(Some(Purple), None, BoldFont)),
    (Door, Style(Some(Purple), None, BoldFont)),
    (BlockDevice, Style(Some(Yellow), Some(Black), BoldFont)),
    (CharacterDevice, Style(Some(Yellow), Some(Black), BoldFont)),
    (OrphanedSymbolicLink, Style(Some(Red), Some(Black), BoldFont)),
    (MissingFile, Style(None, None, DefaultFont)),
    (Setuid, Style(Some(White), Some(Red), DefaultFont)),
    (Setgid, Style(Some(Black), Some(Yellow), DefaultFont)),
    (Capabilities, Style(Some(Black), Some(Red), DefaultFont)),
    (StickyAndOtherWritable, Style(Some(Black), Some(Green), DefaultFont)),
    (OtherWritable, Style(Some(Blue), Some(Green), DefaultFont)),
    (Sticky, Style(Some(White), Some(Blue), DefaultFont)),
    (ExecutableFile, Style(Some(Green), None, BoldFont))
  ]

  /** Each indicator entry of the built-in configuration sets its indicator. */
  lemma DefaultEntriesSet(es: seq<string>)
    requires es == DefaultIndicatorEntries
    ensures |es| == |DefaultIndicatorRules|
    ensures forall k :: 0 <= k < |es| ==> Sets(es[k], DefaultIndicatorRules[k].0, DefaultIndicatorRules[k].1)
  {
    forall k | 0 <= k < |es|
      ensures Sets(es[k], DefaultIndicatorRules[k].0, DefaultIndicatorRules[k].1)
    {
      if k == 0 {
        DefaultResetEntry(es[k], "0");
      } else if k == 1 {
        DefaultDirectoryEntry(es[k], "01;34");
      } else if k == 2 {
        DefaultSymbolicLinkEntry(es[k], "01;36");
      } else if k == 3 {
        DefaultMultipleHardLinksEntry(es[k], "00");
      } else if k == 4 {
        DefaultFIFOEntry(es[k], "40;33");
      } else if k == 5 {
        DefaultSocketEntry(es[k], "01;35");
      } else if k == 6 {
        DefaultDoorEntry(es[k], "01;35");
      } else if k == 7 {
        DefaultBlockDeviceEntry(es[k], "40;33;01");
      } else if k == 8 {
        DefaultCharacterDeviceEntry(es[k], "40;33;01");
      } else if k == 9 {
        DefaultOrphanedSymbolicLinkEntry(es[k], "40;31;01");
      } else if k == 10 {
        DefaultMissingFileEntry(es[k], "00");
      } else if k == 11 {
        DefaultSetuidEntry(es[k], "37;41");
      } else if k == 12 {
        DefaultSetgidEntry(es[k], "30;43");
      } else if k == 13 {
        DefaultCapabilitiesEntry(es[k], "30;41");
      } else if k == 14 {
        DefaultStickyAndOtherWritableEntry(es[k], "30;42");
      } else if k == 15 {
        DefaultOtherWritableEntry(es[k], "34;42");
      } else if k == 16 {
        DefaultStickyEntry(es[k], "37;44");
      } else if k == 17 {
        DefaultExecutableFileEntry(es[k], "01;32");
      }
    }
  }

  /** No indicator entry of the built-in configuration contains `:`. */
  lemma DefaultIndicatorEntriesPlain(es: seq<string>)
    requires es == DefaultIndicatorEntries
    ensures forall k :: 0 <= k < |es| ==> ':' !in es[k]
  {
  }

  /** Storing the rules in order gives the indicator table of the built-in configuration. */
  lemma DefaultRulesTable(rules: seq<(Indicator, Style)>)
    requires rules == DefaultIndicatorRules
    ensures Assigned(map[], rules) == DefaultIndicatorStyles
  {
    var m: map<Indicator, Style> := map[];
    assert rules[0..] == rules;
    AssignedStep(m, rules, 0);
    m := m[rules[0].0 := rules[0].1];
    AssignedStep(m, rules, 1);
    m := m[rules[1].0 := rules[1].1];
    AssignedStep(m, rules, 2);
    m := m[rules[2].0 := rules[2].1];
    AssignedStep(m, rules, 3);
    m := m[rules[3].0 := rules[3].1];
    AssignedStep(m, rules, 4);
    m := m[rules[4].0 := rules[4].1];
    AssignedStep(m, rules, 5);
    m := m[rules[5].0 := rules[5].1];
    AssignedStep(m, rules, 6);
    m := m[rules[6].0 := rules[6].1];
    AssignedStep(m, rules, 7);
    m := m[rules[7].0 := rules[7].1];
    AssignedStep(m, rules, 8);
    m := m[rules[8].0 := rules[8].1];
    AssignedStep(m, rules, 9);
    m := m[rules[9].0 := rules[9].1];
    AssignedStep(m, rules, 10);
    m := m[rules[10].0 := rules[10].1];
    AssignedStep(m, rules, 11);
    m := m[rules[11].0 := rules[11].1];
    AssignedStep(m, rules, 12);
    m := m[rules[12].0 := rules[12].1];
    AssignedStep(m, rules, 13);
    m := m[rules[13].0 := rules[13].1];
    AssignedStep(m, rules, 14);
    m := m[rules[14].0 := rules[14].1];
    AssignedStep(m, rules, 15);
    m := m[rules[15].0 := rules[15].1];
    AssignedStep(m, rules, 16);
    m := m[rules[16].0 := rules[16].1];
    AssignedStep(m, rules, 17);
    m := m[rules[17].0 := rules[17].1];
    assert rules[18..] == [];
  }

  /** The indicator entries of the built-in configuration build its indicator table. */
  lemma DefaultIndicatorTable(es: seq<string>)
    requires es == DefaultIndicatorEntries
    ensures ApplyEntries(Empty, es) == Mappings(DefaultIndicatorStyles, [])
  {
    DefaultEntriesSet(es);
    SettingEntries(Empty, es, DefaultIndicatorRules);
    DefaultRulesTable(DefaultIndicatorRules);
  }

  // ---------------------------------------------------------------------
  // The suffix entries

  /** A suffix entry for a `.`-suffix, or the empty entry; no `:` in either. */
  predicate DottedEntry(e: string)
  {
    ':' !in e && (e == "" || (|e| >= 2 && e[0] == '*' && e[1] == '.'))
  }

  /** Every suffix rule is for a suffix that starts with `.`. */
  predicate DotSuffixes(m: Mappings)
  {
    forall k :: 0 <= k < |m.suffixes| ==> |m.suffixes[k].0| > 0 && m.suffixes[k].0[0] == '.'
  }

  /** The entries of run 1 are dotted suffix entries. */
  lemma SuffixRun1Dotted(es: seq<string>)
    requires es == SuffixRun1
    ensures forall k :: 0 <= k < |es| ==> DottedEntry(es[k])
  {
  }

  /** The entries of run 2 are dotted suffix entries. */
  lemma SuffixRun2Dotted(es: seq<string>)
    requires es == SuffixRun2
    ensures forall k :: 0 <= k < |es| ==> DottedEntry(es[k])
  {
  }

  /** The entries of run 3 are dotted suffix entries. */
  lemma SuffixRun3Dotted(es: seq<string>)
    requires es == SuffixRun3
    ensures forall k :: 0 <= k < |es| ==> DottedEntry(es[k])
  {
  }

  /** The entries of run 4 are dotted suffix entries. */
  lemma SuffixRun4Dotted(es: seq<string>)
    requires es == SuffixRun4
    ensures forall k :: 0 <= k < |es| ==> DottedEntry(es[k])
  {
  }

  /** All suffix entries of the built-in configuration are dotted suffix entries. */
  lemma DefaultSuffixesDotted(es: seq<string>)
    requires es == DefaultSuffixEntries
    ensures forall k :: 0 <= k < |es| ==> DottedEntry(es[k])
  {
    SuffixRun1Dotted(SuffixRun1);
    SuffixRun2Dotted(SuffixRun2);
    SuffixRun3Dotted(SuffixRun3);
    SuffixRun4Dotted(SuffixRun4);
    var a, b, c := SuffixRun1 + SuffixRun2, SuffixRun3, SuffixRun4;
    assert forall k :: 0 <= k < |a| ==> DottedEntry(a[k]);
    assert forall k :: 0 <= k < |a + b| ==> DottedEntry((a + b)[k]);
    assert forall k :: 0 <= k < |a + b + c| ==> DottedEntry((a + b + c)[k]);
  }

  /**
   * A dotted suffix entry leaves the indicator table alone, and a rule it
   * appends is for a suffix that starts with `.`.
   */
  lemma DottedEntryStep(m: Mappings, e: string)
    requires DottedEntry(e) && DotSuffixes(m)
    ensures ApplyEntry(m, e).indicators == m.indicators
    ensures DotSuffixes(ApplyEntry(m, e))
  {
    if e == "" {
      NoValueIgnored(m, e);
    } else {
      assert '=' !in e[..2] by { assert e[..2] == "*."; }
      SplitFirstKeeps(e, '=', 2);
      var parts := Parts(e);
      if |parts| >= 2 {
        var key := parts[0];
        assert key[0] == '*' && key[1] == '.';
        var suffix := ToAsciiLower(key[1..]);
        assert suffix[0] == '.';
      }
    }
  }

  /** Dotted suffix entries leave the indicator table alone and keep every suffix dotted. */
  lemma {:induction false} DottedEntries(m: Mappings, es: seq<string>)
    requires forall k :: 0 <= k < |es| ==> DottedEntry(es[k])
    requires DotSuffixes(m)
    ensures ApplyEntries(m, es).indicators == m.indicators
    ensures DotSuffixes(ApplyEntries(m, es))
    decreases |es|
  {
    if |es| > 0 {
      DottedEntryStep(m, es[0]);
      assert forall k :: 0 <= k < |es[1..]| ==> es[1..][k] == es[k + 1];
      DottedEntries(ApplyEntry(m, es[0]), es[1..]);
    }
  }

  // ---------------------------------------------------------------------
  // The whole configuration

  /** The entries of `LS_COLORS_DEFAULT` are the indicator entries, then the suffix entries. */
  lemma DefaultEntries(s: string, ind: seq<string>, sfx: seq<string>)
    requires ind == DefaultIndicatorEntries && sfx == DefaultSuffixEntries
    requires s == Join(ind + sfx, ':')
    ensures Entries(s) == ind + sfx
  {
    DefaultIndicatorEntriesPlain(ind);
    DefaultSuffixesDotted(sfx);
    assert forall k :: 0 <= k < |ind + sfx| ==> ':' !in (ind + sfx)[k];
    SplitJoin(ind + sfx, ':');
  }

  /**
   * `LsColors::default()`: the indicator table is `DefaultIndicatorStyles`,
   * and every suffix rule is for a suffix that starts with `.`.
   */
  lemma DefaultTables(s: string)
    requires s == LsColorsDefault
    ensures Added(Empty, s).indicators == DefaultIndicatorStyles
    ensures DotSuffixes(Added(Empty, s))
  {
    var ind, sfx := DefaultIndicatorEntries, DefaultSuffixEntries;
    DefaultEntries(s, ind, sfx);
    ApplyEntriesConcat(Empty, ind, sfx);
    DefaultIndicatorTable(ind);
    DefaultSuffixesDotted(sfx);
    DottedEntries(ApplyEntries(Empty, ind), sfx);
  }
}
