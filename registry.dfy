/**
 * The configuration language of `LsColors::add_from_string` (src/lib.rs), as
 * a function on the two tables it fills: a `:`-separated list of `key=value`
 * entries, where a key `*suffix` appends a suffix rule and a two-letter key
 * sets or removes the style of one indicator.
 */
module Registry {
  import opened Wrappers
  import opened Text
  import opened Styles
  import opened Indicators

  /**
   * The two tables of `LsColors`: indicator styles, and the suffix rules in
   * the order they were configured (later rules take precedence).
   */
  datatype Mappings = Mappings(indicators: map<Indicator, Style>, suffixes: seq<(string, Style)>)

  /** `LsColors::empty()`. */
  const Empty := Mappings(map[], [])

  /** `input.split(':')`. */
  function Entries(input: string): seq<string>
  {
    Split(input, ':')
  }

  /** `entry.split('=')`. */
  function Parts(entry: string): seq<string>
  {
    Split(entry, '=')
  }

  /** What one entry does to the tables. */
  function ApplyEntry(m: Mappings, entry: string): Mappings
  {
    var parts := Parts(entry);
    if |parts| < 2 then m
    else
      var key, style := parts[0], ParseStyle(parts[1]);
      if |key| > 0 && key[0] == '*' then
        if style.Some? then m.(suffixes := m.suffixes + [(ToAsciiLower(key[1..]), style.value)]) else m
      else
        match FromCode(key)
        case None => m
        case Some(i) =>
          if style.Some? then m.(indicators := m.indicators[i := style.value])
          else m.(indicators := m.indicators - {i})
  }

  /** The entries applied one after the other, first to last. */
  function ApplyEntries(m: Mappings, entries: seq<string>): Mappings
    decreases |entries|
  {
    if |entries| == 0 then m else ApplyEntries(ApplyEntry(m, entries[0]), entries[1..])
  }

  /** The tables after `add_from_string(input)`. */
  function Added(m: Mappings, input: string): Mappings
  {
    ApplyEntries(m, Entries(input))
  }

  /** The indicator an entry configures, if it configures one. */
  function EntryIndicator(entry: string): Option<Indicator>
  {
    var parts := Parts(entry);
    if |parts| < 2 || (|parts[0]| > 0 && parts[0][0] == '*') then None else FromCode(parts[0])
  }

  /** An entry that never touches the indicator table. */
  predicate IsSuffixOrIgnored(entry: string)
  {
    var parts := Parts(entry);
    |parts| < 2 || (|parts[0]| > 0 && parts[0][0] == '*')
  }

  /** Every suffix of a rule is ASCII lower case. */
  predicate LowerSuffixes(m: Mappings)
  {
    forall k :: 0 <= k < |m.suffixes| ==> IsAsciiLower(m.suffixes[k].0)
  }

  // ---------------------------------------------------------------------
  // Splitting entries

  /**
   * The key is everything before the first `=`, and the value everything up
   * to the second `=`; anything after a second `=` is ignored.
   */
  lemma KeyAndValue(key: string, value: string)
    requires '=' !in key
    ensures |Parts(key + "=" + value)| >= 2
    ensures Parts(key + "=" + value)[0] == key
    ensures Parts(key + "=" + value)[1] == Split(value, '=')[0]
  {
    SplitAtFirst(key, '=', value);
  }

  /** An entry without `=`, the empty entry among them, changes nothing. */
  lemma NoValueIgnored(m: Mappings, entry: string)
    requires '=' !in entry
    ensures ApplyEntry(m, entry) == m
  {
    SplitNoSeparator(entry, '=');
  }

  // ---------------------------------------------------------------------
  // What a single entry does

  /**
   * `*suffix=value`: a value that parses appends the lower-cased suffix and
   * its style at the end of the suffix rules; otherwise nothing changes. The
   * indicator table is never touched.
   */
  lemma SuffixRule(m: Mappings, suffix: string, value: string)
    requires '=' !in suffix && '=' !in value
    ensures ParseStyle(value).Some? ==>
      ApplyEntry(m, "*" + suffix + "=" + value)
        == Mappings(m.indicators, m.suffixes + [(ToAsciiLower(suffix), ParseStyle(value).value)])
    ensures ParseStyle(value).None? ==> ApplyEntry(m, "*" + suffix + "=" + value) == m
  {
    var key := "*" + suffix;
    assert key + "=" + value == "*" + suffix + "=" + value;
    SplitAtFirst(key, '=', value);
    SplitNoSeparator(value, '=');
    assert key[1..] == suffix;
  }

  /** The two parts of an entry whose key and value hold no `=`. */
  lemma PlainParts(key: string, value: string)
    requires '=' !in key && '=' !in value
    ensures Parts(key + "=" + value) == [key, value]
  {
    SplitAtFirst(key, '=', value);
    SplitNoSeparator(value, '=');
  }

  /**
   * `xx=value` for the key of indicator `i`: a value that parses sets the
   * style of `i`, one that does not removes it. Nothing else changes.
   */
  lemma IndicatorRule(m: Mappings, i: Indicator, value: string)
    requires '=' !in value
    ensures ParseStyle(value).Some? ==>
      ApplyEntry(m, Code(i) + "=" + value) == Mappings(m.indicators[i := ParseStyle(value).value], m.suffixes)
    ensures ParseStyle(value).None? ==>
      ApplyEntry(m, Code(i) + "=" + value) == Mappings(m.indicators - {i}, m.suffixes)
  {
    var key := Code(i);
    PlainParts(key, value);
    FromCodeOfCode(i);
    assert key[0] != '*';
  }

  /** An indicator entry whose value is known to parse to `st`. */
  lemma IndicatorEntry(m: Mappings, entry: string, i: Indicator, value: string, st: Style)
    requires entry == Code(i) + "=" + value && '=' !in value
    requires ParseStyle(value) == Some(st)
    ensures ApplyEntry(m, entry) == Mappings(m.indicators[i := st], m.suffixes)
  {
    IndicatorRule(m, i, value);
  }

  /** A key that is neither `*...` nor an indicator key changes nothing. */
  lemma UnknownKeyIgnored(m: Mappings, key: string, value: string)
    requires '=' !in key
    requires |key| == 0 || key[0] != '*'
    requires FromCode(key).None?
    ensures ApplyEntry(m, key + "=" + value) == m
  {
    KeyAndValue(key, value);
  }

  /**
   * Any entry leaves every indicator other than the one it configures as it
   * was, and either keeps the suffix rules or appends one rule.
   */
  lemma EntryFrame(m: Mappings, entry: string)
    ensures forall i :: Some(i) != EntryIndicator(entry) ==>
      (i in ApplyEntry(m, entry).indicators <==> i in m.indicators)
    ensures forall i :: Some(i) != EntryIndicator(entry) && i in m.indicators ==>
      ApplyEntry(m, entry).indicators[i] == m.indicators[i]
    ensures var s := ApplyEntry(m, entry).suffixes;
      s == m.suffixes || (|s| == |m.suffixes| + 1 && s[..|m.suffixes|] == m.suffixes)
    ensures IsSuffixOrIgnored(entry) ==> ApplyEntry(m, entry).indicators == m.indicators
  {
    var s := ApplyEntry(m, entry).suffixes;
    if s != m.suffixes {
      assert s[..|m.suffixes|] == m.suffixes;
    }
  }

  // ---------------------------------------------------------------------
  // Sequences of entries

  /** One step of `ApplyEntries` from position `k`. */
  lemma ApplyEntriesStep(m: Mappings, entries: seq<string>, k: nat)
    requires k < |entries|
    ensures ApplyEntries(m, entries[k..]) == ApplyEntries(ApplyEntry(m, entries[k]), entries[k + 1..])
  {
    assert entries[k..][1..] == entries[k + 1..];
  }

  /** Applying entries in two batches is applying them all. */
  lemma {:induction false} ApplyEntriesConcat(m: Mappings, a: seq<string>, b: seq<string>)
    ensures ApplyEntries(m, a + b) == ApplyEntries(ApplyEntries(m, a), b)
    decreases |a|
  {
    if |a| > 0 {
      assert (a + b)[0] == a[0];
      assert (a + b)[1..] == a[1..] + b;
      ApplyEntriesConcat(ApplyEntry(m, a[0]), a[1..], b);
    } else {
      assert a + b == b;
    }
  }

  /**
   * Configuration strings compose: adding `x:y` is adding `x` and then `y`.
   * So `from_string(s)` is the default configuration with `s` added on top.
   */
  lemma AddedConcat(m: Mappings, x: string, y: string)
    ensures Added(m, x + ":" + y) == Added(Added(m, x), y)
  {
    SplitConcat(x, ':', y);
    ApplyEntriesConcat(m, Entries(x), Entries(y));
  }

  /** A configuration string of one entry. */
  lemma AddedSingle(m: Mappings, entry: string)
    requires ':' !in entry
    ensures Added(m, entry) == ApplyEntry(m, entry)
  {
    SplitNoSeparator(entry, ':');
    assert Entries(entry) == [entry];
    assert [entry][1..] == [];
    assert ApplyEntries(m, [entry]) == ApplyEntries(ApplyEntry(m, entry), []);
  }

  /** A configuration string of two entries. */
  lemma AddedPair(m: Mappings, a: string, b: string)
    requires ':' !in a && ':' !in b
    ensures Added(m, a + ":" + b) == ApplyEntry(ApplyEntry(m, a), b)
  {
    assert a + ":" + b == a + [':'] + b;
    SplitAtFirst(a, ':', b);
    SplitNoSeparator(b, ':');
    assert Entries(a + ":" + b) == [a, b];
    var m1 := ApplyEntry(m, a);
    assert [a, b][1..] == [b] && [b][1..] == [];
    assert ApplyEntries(m1, [b]) == ApplyEntries(ApplyEntry(m1, b), []);
  }

  /** Suffix rules are only ever appended: earlier rules, duplicates included, stay. */
  lemma {:induction false} SuffixesAppendOnly(m: Mappings, entries: seq<string>)
    ensures |ApplyEntries(m, entries).suffixes| >= |m.suffixes|
    ensures ApplyEntries(m, entries).suffixes[..|m.suffixes|] == m.suffixes
    decreases |entries|
  {
    if |entries| > 0 {
      var m1 := ApplyEntry(m, entries[0]);
      EntryFrame(m, entries[0]);
      SuffixesAppendOnly(m1, entries[1..]);
      var s := ApplyEntries(m, entries).suffixes;
      assert s[..|m1.suffixes|][..|m.suffixes|] == s[..|m.suffixes|];
    }
  }

  /** Entries that are all suffix rules (or ignored) leave the indicator table alone. */
  lemma {:induction false} SuffixEntriesKeepIndicators(m: Mappings, entries: seq<string>)
    requires forall k :: 0 <= k < |entries| ==> IsSuffixOrIgnored(entries[k])
    ensures ApplyEntries(m, entries).indicators == m.indicators
    decreases |entries|
  {
    if |entries| > 0 {
      EntryFrame(m, entries[0]);
      assert forall k :: 0 <= k < |entries[1..]| ==> entries[1..][k] == entries[k + 1];
      SuffixEntriesKeepIndicators(ApplyEntry(m, entries[0]), entries[1..]);
    }
  }

  /** An indicator that no entry configures keeps its style, or its absence. */
  lemma {:induction false} UntouchedIndicator(m: Mappings, entries: seq<string>, i: Indicator)
    requires forall k :: 0 <= k < |entries| ==> EntryIndicator(entries[k]) != Some(i)
    ensures i in ApplyEntries(m, entries).indicators <==> i in m.indicators
    ensures i in m.indicators ==> ApplyEntries(m, entries).indicators[i] == m.indicators[i]
    decreases |entries|
  {
    if |entries| > 0 {
      EntryFrame(m, entries[0]);
      assert forall k :: 0 <= k < |entries[1..]| ==> entries[1..][k] == entries[k + 1];
      UntouchedIndicator(ApplyEntry(m, entries[0]), entries[1..], i);
    }
  }

  /** `entry` sets indicator `i` to `st`, whatever the tables it is applied to. */
  ghost predicate Sets(entry: string, i: Indicator, st: Style)
  {
    forall m: Mappings {:trigger ApplyEntry(m, entry)} :: ApplyEntry(m, entry) == Mappings(m.indicators[i := st], m.suffixes)
  }

  /** `entry` appends the rule `(suffix, st)`, whatever the tables it is applied to. */
  ghost predicate Appends(entry: string, suffix: string, st: Style)
  {
    forall m: Mappings {:trigger ApplyEntry(m, entry)} :: ApplyEntry(m, entry) == Mappings(m.indicators, m.suffixes + [(suffix, st)])
  }

  /** An indicator entry whose value parses to `st` sets its indicator to `st`. */
  lemma EntrySets(entry: string, i: Indicator, value: string, st: Style)
    requires entry == Code(i) + "=" + value && '=' !in value
    requires ParseStyle(value) == Some(st)
    ensures Sets(entry, i, st)
  {
    forall m: Mappings {
      IndicatorEntry(m, entry, i, value, st);
    }
  }

  /** A suffix entry whose value parses to `st` appends its lower-cased suffix with `st`. */
  lemma EntryAppends(entry: string, suffix: string, value: string, st: Style)
    requires entry == "*" + suffix + "=" + value && '=' !in suffix && '=' !in value
    requires ParseStyle(value) == Some(st)
    ensures Appends(entry, ToAsciiLower(suffix), st)
  {
    forall m: Mappings {
      SuffixRule(m, suffix, value);
    }
  }

  /** The indicator table after each `(i, st)` of `rules` is stored, first to last. */
  function Assigned(base: map<Indicator, Style>, rules: seq<(Indicator, Style)>): map<Indicator, Style>
    decreases |rules|
  {
    if |rules| == 0 then base else Assigned(base[rules[0].0 := rules[0].1], rules[1..])
  }

  /** One step of `Assigned` from position `k`. */
  lemma AssignedStep(base: map<Indicator, Style>, rules: seq<(Indicator, Style)>, k: nat)
    requires k < |rules|
    ensures Assigned(base, rules[k..]) == Assigned(base[rules[k].0 := rules[k].1], rules[k + 1..])
  {
    assert rules[k..][1..] == rules[k + 1..];
  }

  /** A single assignment. */
  lemma AssignedOne(base: map<Indicator, Style>, i: Indicator, st: Style)
    ensures Assigned(base, [(i, st)]) == base[i := st]
  {
    assert [(i, st)][1..] == [];
  }

  /** Two assignments, the second stored last. */
  lemma AssignedTwo(base: map<Indicator, Style>, i: Indicator, st: Style, j: Indicator, st2: Style)
    ensures Assigned(base, [(i, st), (j, st2)]) == base[i := st][j := st2]
  {
    assert [(i, st), (j, st2)][1..] == [(j, st2)];
    AssignedOne(base[i := st], j, st2);
  }

  /** Entries that each set one indicator build the table of those assignments. */
  lemma {:induction false} SettingEntries(m: Mappings, entries: seq<string>, rules: seq<(Indicator, Style)>)
    requires |entries| == |rules|
    requires forall k :: 0 <= k < |entries| ==> Sets(entries[k], rules[k].0, rules[k].1)
    ensures ApplyEntries(m, entries) == Mappings(Assigned(m.indicators, rules), m.suffixes)
    decreases |entries|
  {
    if |entries| > 0 {
      assert Sets(entries[0], rules[0].0, rules[0].1);
      var m1 := ApplyEntry(m, entries[0]);
      assert forall k :: 0 <= k < |entries[1..]| ==> entries[1..][k] == entries[k + 1] && rules[1..][k] == rules[k + 1];
      SettingEntries(m1, entries[1..], rules[1..]);
    }
  }

  /** The configuration string `input` stores `rules` in the indicator table, whatever the tables it is added to. */
  ghost predicate AssignsAll(input: string, rules: seq<(Indicator, Style)>)
  {
    forall m: Mappings {:trigger Added(m, input)} :: Added(m, input) == Mappings(Assigned(m.indicators, rules), m.suffixes)
  }

  /** The configuration string `input` appends `rules` to the suffix rules, whatever the tables it is added to. */
  ghost predicate AppendsAll(input: string, rules: seq<(string, Style)>)
  {
    forall m: Mappings {:trigger Added(m, input)} :: Added(m, input) == Mappings(m.indicators, m.suffixes + rules)
  }

  /** Two entries that each set one indicator, joined by `:`. */
  lemma SettingPair(input: string, a: string, b: string, i: Indicator, st: Style, j: Indicator, st2: Style)
    requires input == a + ":" + b && ':' !in a && ':' !in b
    requires Sets(a, i, st) && Sets(b, j, st2)
    ensures AssignsAll(input, [(i, st), (j, st2)])
  {
    forall m: Mappings
      ensures Added(m, input) == Mappings(Assigned(m.indicators, [(i, st), (j, st2)]), m.suffixes)
    {
      AddedPair(m, a, b);
      var m1 := ApplyEntry(m, a);
      assert m1 == Mappings(m.indicators[i := st], m.suffixes);
      assert ApplyEntry(m1, b) == Mappings(m1.indicators[j := st2], m.suffixes);
      AssignedTwo(m.indicators, i, st, j, st2);
    }
  }

  /** Appending two rules one at a time appends both. */
  lemma ConcatPair<T>(rules: seq<T>, x: T, y: T)
    ensures rules + [x] + [y] == rules + [x, y]
  {
  }

  /** Two entries that each append one suffix rule, joined by `:`. */
  lemma AppendingPair(input: string, a: string, b: string, s: string, st: Style, s2: string, st2: Style)
    requires input == a + ":" + b && ':' !in a && ':' !in b
    requires Appends(a, s, st) && Appends(b, s2, st2)
    ensures AppendsAll(input, [(s, st), (s2, st2)])
  {
    forall m: Mappings
      ensures Added(m, input) == Mappings(m.indicators, m.suffixes + [(s, st), (s2, st2)])
    {
      AddedPair(m, a, b);
      var m1 := Mappings(m.indicators, m.suffixes + [(s, st)]);
      assert ApplyEntry(m, a) == m1;
      assert ApplyEntry(m1, b) == Mappings(m.indicators, m1.suffixes + [(s2, st2)]);
      ConcatPair(m.suffixes, (s, st), (s2, st2));
    }
  }

  /** The suffixes of all rules are lower case. */
  lemma {:induction false} SuffixesStayLower(m: Mappings, entries: seq<string>)
    requires LowerSuffixes(m)
    ensures LowerSuffixes(ApplyEntries(m, entries))
    decreases |entries|
  {
    if |entries| > 0 {
      var m1 := ApplyEntry(m, entries[0]);
      var parts := Parts(entries[0]);
      if |parts| >= 2 && |parts[0]| > 0 && parts[0][0] == '*' {
        LowerIsLower(parts[0][1..]);
      }
      assert LowerSuffixes(m1);
      SuffixesStayLower(m1, entries[1..]);
    }
  }
}
