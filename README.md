# lscolors core, modelled in Dafny

This project models the core of the Rust crate `lscolors`, which colours file
names the way GNU `ls` does under the `LS_COLORS` environment variable:

- **SGR style parser** (`Style::from_ansi_sequence`). A `;`-separated list of
  decimal bytes is read left to right. The result is a foreground colour, a
  background colour and the bold/italic/underline flags. The extended forms
  `38;5;n`, `38;2;r;g;b`, `48;5;n` and `48;2;r;g;b` are covered.
- **Configuration registry** (`LsColors::add_from_string`). A `:`-separated
  list of `key=value` entries fills two tables:
  - `*suffix` keys append a lower-cased suffix rule;
  - two-letter keys set or remove the style of one of the 24 indicators.
- **Built-in configuration** (`LS_COLORS_DEFAULT`, `LsColors::default`).
- **Classifier** (`indicator_for`). It picks an indicator for a file system
  entry from its file type, mode bits, link count and whether its target
  exists.
- **Style lookups**:
  - `style_for_indicator` tries the indicator, then its one fallback, then
    `Normal`;
  - `style_for_path_with_metadata` scans the suffix rules backwards;
  - `StyledComponents::next` styles a path one prefix at a time.

Files:

| file | module | contents |
|---|---|---|
| `wrappers.dfy` | `Wrappers` | `Option` |
| `text.dfy` | `Text` | `split`/join, suffix test, ASCII lower case |
| `style.dfy` | `Styles` | `Color`, `FontStyle`, `Style`, the parser as a function (`ParseStyle`) and as the source's token loop (`FromAnsiSequence`) |
| `indicator.dfy` | `Indicators` | `Indicator`, its keys, `Indicator::from`, the fallback table |
| `registry.dfy` | `Registry` | the two tables as a value (`Mappings`) and what entries and configuration strings do to them |
| `defaults.dfy` | `Defaults` | `LS_COLORS_DEFAULT` and the tables it builds |
| `colors.dfy` | `Colors` | the metadata record, the classifier, the lookups and the `LsColors` class |
| `scenarios.dfy` | `Scenarios` | the behaviour the crate's tests exercise, proved on the model |
| `components.dfy` | `Components` | `Component` and the `StyledComponents` iterator |

### How the model is built

- **Functions and methods.** Pure parts of the source are functions over
  `Mappings`. The parts that mutate state are methods whose `ensures` ties
  the new state or the result to those functions:
  - `LsColors.AddFromString` mutates the class fields in a loop;
  - `LsColors.StyleForPathWithMetadata` scans the suffix rules backwards
    and returns early on a match;
  - `FromAnsiSequence` pops tokens off a queue;
  - `StyledComponents.Next` mutates the iterator state.
- **Defaults without evaluating the whole string.** The built-in
  configuration is not evaluated in one go:
  - `DefaultEntries` splits it into its 18 indicator entries and its suffix
    entries;
  - `DottedEntries` shows that suffix entries never touch the indicator
    table;
  - `DefaultIndicatorTable` builds the indicator table from the 18 entries
    alone.
- **Inputs that come from outside.** Operating-system queries become
  parameters:
  - the file type, mode, link count and whether the target exists form the
    `Metadata` record;
  - the file name is an `Option<string>`: `None` when the path has no file
    name or the name is not UTF-8;
  - for path components, the style of each prefix is a function parameter.

### Where the code and its tests disagree

The model follows the code.

- **`0` does not remove an indicator.** The values `0` and `00` are
  well-formed codes: they parse to the all-default style, which is stored.
  So `mi=00`, `su=0` and `tw=0` leave their indicator configured, and
  `has_color_for` stays true. The tests at
  src/lib.rs:553-558, 560-565, 582-584 and 614-622 expect these indicators
  to be unconfigured.
  - `MissingFileFallback` covers `or=33;44`. On top of the defaults,
    MissingFile keeps the default `mi=00` style. Yellow on blue is reached
    only when MissingFile has no style.
  - `ZeroKeepsSetuid` covers `su=0`.
  - `ZeroKeepsStickyOtherWritable` covers `tw=0`.
  - `ZerosKeepStickyOtherWritable` covers `tw=0:ow=0` (src/lib.rs:619-622).
  - `ZeroMissingNoFallback` covers `or=33;44:mi=00` (src/lib.rs:560-565).
- **Code 35 is `Purple`.** The tests call that colour `Magenta`.
- **`st` is not sticky and other-writable.** The doc comment at
  src/lib.rs:68 says it is. The classifier tests only the sticky bit
  (src/lib.rs:292), and the model does the same.

## Model

| member | source | states |
|---|---|---|
| Styles.ParseByte | src/style.rs:71-73 | A token is accepted exactly when, after an optional leading `+`, it is a non-empty run of decimal digits whose value is below 256; the byte is then that value. The empty token and a bare `+` are rejected. |
| Styles.LeadingZeroIgnored | src/style.rs:72 | A leading `0` in front of a run of digits changes nothing: `01` and `1` (and `0256` and `256`) are read alike. |
| Styles.ParseDecimal | src/style.rs:72 | Every byte is read back from its decimal rendering (`u8::from_str_radix` accepts every value 0..=255). |
| Styles.ParseTokens | src/style.rs:70-73 | The token list converts exactly when every token is a byte. The result then has one byte per token, each the value of its token. |
| Styles.ParseStyle | src/style.rs:69-142 | A style is returned exactly when every `;`-separated token is a byte. Its value is `Interpret` of those bytes from the plain style; what that means is stated by the `Interpret` lemmas below (`ResetFont`, `FontCommutesWithColor`, `LaterColorWinsAcross`, `FixedColor`, `RgbColor`, `StopKeepsAccumulated`, `BoldIsSticky`, ...). |
| Styles.FromAnsiSequence | src/style.rs:69-142 | The source's pop-front loop, with its early exits on an unknown token and on an incomplete `38`/`48` group, returns exactly `ParseStyle(code)`. |
| Styles.PopFront | src/style.rs:80 | `pop_front` returns the first element and the rest, or `None` on an empty queue. |
| Styles.Interpret | src/style.rs:79-141 | The token loop as a recursive function; it has no contract of its own. Its behaviour is stated by the lemmas from `ResetFont` to `ForegroundNeedsToken` below, and `FromAnsiSequence` is proved equal to it. |
| Styles.Update | src/style.rs:81-130 | The single-token arms (`0`, `1`, `3`, `4`, `30`-`37`, `39`, `40`-`47`, `49`) as one function, with no contract of its own. They are characterized by `ResetFont`, `FontCommutesWithColor`, `LaterColorWinsAcross`, `BoldIsSticky` and `FontFlagIsSticky`. |
| Styles.Extended | src/style.rs:93-129 | A complete `38`/`48` group consumes at least its mode and one argument and no more tokens than there are. `IncompleteGroups`, `FixedColor` and `RgbColor` state when it fails and which colour it yields. |
| Styles.EmptyCodeFails | src/style.rs:70-73 | The empty code is rejected: its single empty token is not a byte. |
| Styles.ResetFont | src/style.rs:81 | `0` clears all font flags and leaves both colours as they are. |
| Styles.FontCommutesWithColor | src/style.rs:81-92 | A bold, italic or underline token and a one-token colour give the same style in either order (the `03;34` / `34;03` tests). |
| Styles.FontCommutesWithGroup | src/style.rs:81-129 | A font token and a complete `38`/`48` group give the same style in either order (the `01;38;5;119` / `38;5;119;01` tests). |
| Styles.LaterColorWins | src/style.rs:85-92 | Of two adjacent colour tokens for the same layer, the later one decides. |
| Styles.LaterColorWinsAcross | src/style.rs:85-115 | The same with any single tokens in between that do not colour that layer: the earlier colour token can be dropped. |
| Styles.LaterColorWinsOverGroup | src/style.rs:93-129 | A colour set by a complete `38`/`48` group is dropped when a later one-token colour for the same layer follows, with single tokens for other layers or fonts in between. |
| Styles.FixedColor | src/style.rs:93-117 | `38;5;n` / `48;5;n` select palette colour `n` for the foreground / background, and reading continues after the group. |
| Styles.RgbColor | src/style.rs:95-120 | `38;2;r;g;b` / `48;2;r;g;b` select a 24-bit colour, and reading continues after the group. |
| Styles.StopKeepsAccumulated | src/style.rs:93-141 | An unknown token, or an incomplete `38`/`48` group, ends reading. The style accumulated so far is returned, whatever follows. |
| Styles.IncompleteGroups | src/style.rs:93-133 | An extended group is rejected exactly when the mode token is missing or is neither 5 nor 2, or when a 5 is missing its index or a 2 is missing one of its three components. A `38` or `48` followed by such a group ends reading, and the result is the style accumulated before it. |
| Styles.FontFlagIsSticky | src/style.rs:81-84 | The same for each of bold, italic and underline: a flag set at the start survives unless a `0` is read, and a flag is set at the end only if it was set at the start or its own token (`1`, `3` or `4`) was read. |
| Styles.BoldIsSticky | src/style.rs:81-82 | Bold set at the start survives unless a `0` is read. Bold is set at the end only if it was set at the start or a `1` was read. |
| Styles.ForegroundNeedsToken | src/style.rs:85-107 | A token list with no foreground token (30-37, 38, 39) leaves the foreground as it was. |
| Styles.RedExample | src/style.rs:161-162 | `31` is red on the default background with default font. |
| Styles.GreenOnBlackExample | src/style.rs:164-169 | `32;40` is green on black. |
| Styles.ResetAfterColorExample | src/style.rs:189 | `31;00` is red: the trailing `00` resets only the font. |
| Styles.ItalicFirstExample | src/style.rs:175 | `03;34` is blue italic. |
| Styles.ItalicLastExample | src/style.rs:187 | `34;03` is blue italic. |
| Styles.FixedThenBoldExample | src/style.rs:212-217 | `38;5;119;01` is palette colour 119, bold. |
| Styles.BoldThenFixedExample | src/style.rs:206-211 | `01;38;5;119` is palette colour 119, bold. |
| Styles.RgbThenItalicExample | src/style.rs:228-233 | `38;2;115;3;100;3` is RGB(115, 3, 100), italic. |
| Styles.IncompleteGroupExample | src/style.rs:93-105 | `38;5` parses, to the plain style: the incomplete group stops reading. |
| Styles.TrailingSeparatorExample | src/style.rs:70-73 | `31;` is rejected: the empty last token is not a byte. |
| Styles.OverflowExample | src/style.rs:72 | `256` is rejected: it does not fit in a `u8`. |
| Styles.SignExamples | src/style.rs:72 | `-1` is rejected. `+1` is accepted as 1, bold (`from_str_radix` takes a leading `+`). |
| Indicators.Code | src/lib.rs:31-103 | Every indicator key is two lower-case ASCII letters. |
| Indicators.FromCode | src/lib.rs:106-134 | An accepted string is the key of the indicator returned. |
| Indicators.FromCodeOfCode | src/lib.rs:106-134 | Every indicator is recognised from its own key. |
| Indicators.FromCodeIff | src/lib.rs:106-134 | `from(s)` is `i` exactly when `s` is the key of `i`: the 24 keys and the 24 indicators correspond one to one. |
| Indicators.FromCodeRejects | src/lib.rs:106-134 | Exactly the strings that are no indicator's key are rejected. |
| Indicators.FallbackDepth | src/lib.rs:382-397 | Each fallback is its own fallback, except MissingFile → OrphanedSymbolicLink → SymbolicLink. Every proper fallback is fi, di, ln or or. |
| Indicators.Fallback | src/lib.rs:382-397 | The fallback table, with no contract of its own. `FallbackDepth` describes its shape; `StyleForIndicator` and `MissingNeverReachesLink` state how it is used. |
| Registry.ApplyEntry | src/lib.rs:230-245 | One entry's effect on the two tables, with no contract of its own. It is characterized by `KeyAndValue`, `NoValueIgnored`, `SuffixRule`, `IndicatorRule`, `UnknownKeyIgnored` and `EntryFrame`. |
| Registry.ApplyEntries | src/lib.rs:229-247 | The entries applied first to last, with no contract of its own. It is characterized by `ApplyEntriesConcat`, `SuffixEntriesKeepIndicators`, `UntouchedIndicator` and `SettingEntries`, and `LsColors.AddFromString`'s loop is proved to compute it. |
| Registry.Added | src/lib.rs:228-248 | `add_from_string` on values: the `:`-separated entries applied in order. It has no contract of its own; `AddedConcat`, `SuffixesAppendOnly` and `SuffixesStayLower` state its properties. |
| Registry.KeyAndValue | src/lib.rs:229-232 | An entry's key is everything before the first `=`. Its value is everything from there up to the next `=`, so anything after a second `=` is ignored. |
| Registry.NoValueIgnored | src/lib.rs:232 | An entry without `=`, the empty entry among them, changes neither table. |
| Registry.SuffixRule | src/lib.rs:233-238 | `*suffix=value` appends `(lower-case suffix, style)` at the end of the suffix rules when the value parses. Otherwise nothing changes. The indicator table is never touched. |
| Registry.IndicatorRule | src/lib.rs:239-245 | `xx=value` sets indicator `xx` to the parsed style, or removes it when the value does not parse. Nothing else changes. |
| Registry.UnknownKeyIgnored | src/lib.rs:239 | A key that is neither `*...` nor an indicator key changes nothing. |
| Registry.EntryFrame | src/lib.rs:228-248 | Any entry keeps every indicator other than the one it names, both its presence and its style. It keeps the suffix rules or appends exactly one rule after them. A suffix or ignored entry keeps the whole indicator table. |
| Registry.ApplyEntriesConcat | src/lib.rs:229 | Applying entries in two batches is applying them all in order. |
| Registry.AddedConcat | src/lib.rs:221-229 | Adding `x:y` is adding `x`, then `y`. So `from_string(s)` is the built-in configuration with `s` added on top. |
| Registry.SuffixesAppendOnly | src/lib.rs:186-189 | Suffix rules are only ever appended, in configuration order. Earlier rules, duplicates included, remain a prefix. |
| Registry.SuffixEntriesKeepIndicators | src/lib.rs:233-238 | A run of suffix (or ignored) entries leaves the indicator table unchanged. |
| Registry.UntouchedIndicator | src/lib.rs:239-245 | An indicator that no entry names keeps its presence and its style. |
| Registry.SettingEntries | src/lib.rs:239-242 | Entries that each set one indicator build the table of those assignments, applied in order. |
| Registry.SuffixesStayLower | src/lib.rs:236 | Every suffix rule stays ASCII lower case. |
| Defaults.DefaultEntries | src/lib.rs:180 | The built-in string splits into its 18 indicator entries followed by its suffix entries. |
| Defaults.DefaultIndicatorTable | src/lib.rs:180 | The 18 indicator entries, added to empty tables, give exactly the default indicator table (rs, di, ln, mh, pi, so, do, bd, cd, or, mi, su, sg, ca, tw, ow, st, ex with their styles). No suffix rule is added. |
| Defaults.DefaultSuffixesDotted | src/lib.rs:180 | Every suffix entry of the built-in string is `*.` followed by a suffix, or the empty trailing entry. |
| Defaults.DefaultTables | src/lib.rs:180 | `LsColors::default()` has exactly the default indicator table, and every suffix rule it holds starts with `.`. |
| Colors.HasColorFor | src/lib.rs:260-262 | Whether the indicator table has a style for the indicator, with no contract of its own. `ConfiguredAfterEntry` and `IndicatorForReadsKeys` state what changes it and what depends on it. |
| Colors.ConfiguredAfterEntry | src/lib.rs:260-262 | After `xx=value`, `has_color_for(xx)` holds exactly when the value parses. Every other indicator has a colour exactly when it had one before. |
| Colors.IndicatorFor | src/lib.rs:265-330 | No metadata gives RegularFile. An attribute indicator (su, sg, ex, mh, tw, ow, st, or) is chosen only when it is configured. Files, directories and symbolic links get only their own indicators. |
| Colors.IndicatorForPriorities | src/lib.rs:269-303 | Within its file type, the classifier picks the first configured attribute indicator whose test holds, in the order su, sg, ex, mh / tw, ow, st / or. Otherwise it picks the type's plain indicator. |
| Colors.Candidates | src/lib.rs:269-303 | The attribute indicators of each file type in test order, with no contract of its own. `IndicatorForPriorities` states the order it gives. |
| Colors.Base | src/lib.rs:269-325 | The indicator of each file type when no attribute indicator is chosen, with no contract of its own. `IndicatorFor` and `IndicatorForPriorities` state it. |
| Colors.FirstApplicable | src/lib.rs:269-303 | The if/else-if chain of each file type, with no contract of its own. `FirstApplicableMeaning` states what it picks. |
| Colors.FirstApplicableMeaning | src/lib.rs:269-303 | That choice is the type's plain indicator or a configured candidate whose test holds, and no earlier candidate is both configured and applicable. |
| Colors.IndicatorForReadsKeys | src/lib.rs:260-262 | The classifier depends only on which indicators are configured, not on their styles. |
| Colors.FirstConfigured | src/lib.rs:378-400 | `None` exactly when no key has a style. Otherwise it is the style of a configured key before which no key is configured. |
| Colors.StyleForIndicator | src/lib.rs:378-400 | The result is the style of the first configured key among the indicator, its fallback and `Normal`. It is `None` when none of them is configured. |
| Colors.MissingNeverReachesLink | src/lib.rs:391-399 | The fallback is a single step: an unconfigured MissingFile with an unconfigured OrphanedSymbolicLink takes `Normal`'s style, never SymbolicLink's. |
| Colors.SuffixStyle | src/lib.rs:350-356 | `None` exactly when no rule's suffix ends the name. Otherwise it is the style of a matching rule after which no rule matches: the last match wins. |
| Colors.SuffixStyleSkipsLast | src/lib.rs:350-356 | A rule that does not match leaves the lookup as it was. |
| Colors.SuffixStyleLatestWins | src/lib.rs:350-356 | A rule appended later overrides all earlier rules for the names it matches. |
| Colors.StyleForPath | src/lib.rs:336-360 | Any entry that is not a regular file takes its indicator's style. A regular file without a usable name gets `None`. A regular file with a name takes the suffix lookup on its lower-cased name, and the regular-file style when no rule matches. `SuffixStyle` and `StyleForPathIgnoresCase` state what the lookup means, and the method `LsColors.StyleForPathWithMetadata` is proved to compute it. |
| Colors.StyleForPathIgnoresCase | src/lib.rs:346 | Two file names that agree up to ASCII case get the same style. |
| Colors.LsColors.Empty | src/lib.rs:204-209 | `empty()` has no indicator styles and no suffix rules. |
| Colors.LsColors.Default | src/lib.rs:195-199 | `default()` is the built-in string added to the empty tables. |
| Colors.LsColors.FromString | src/lib.rs:222-226 | `from_string(s)` is `s` added on top of `default()`. |
| Colors.LsColors.AddFromString | src/lib.rs:228-248 | The loop over the entries, mutating the two fields, leaves exactly the tables of the entries applied in order. |
| Colors.LsColors.StyleForPathWithMetadata | src/lib.rs:336-360 | The method tries the suffix rules from the back and returns on the first match, which is the last matching rule. This happens only for RegularFile with a file name, and only when a rule matches; otherwise the result is the indicator's style, with its fallbacks. A RegularFile without a usable file name gives `None`, as the `?` at src/lib.rs:346 returns early. |
| Scenarios.DefaultIsDefaultLike | src/lib.rs:195-199 | The default tables hold the default indicator table and only dotted suffix rules. |
| Scenarios.DefaultIndicatorStylesUsed | src/lib.rs:412-425 | With the defaults, Directory is bold blue and SymbolicLink is bold cyan. RegularFile has no style, since neither `fi` nor `no` is configured. |
| Scenarios.DefaultPlainFile | src/lib.rs:512-518 | With the defaults, a plain regular file whose name has no `.` has no style. |
| Scenarios.DefaultDirectory | src/lib.rs:505-510 | With the defaults, a directory that is neither sticky nor other-writable is bold blue. |
| Scenarios.DefaultSymbolicLinks | src/lib.rs:520-542 | With the defaults, a symbolic link is bold cyan. A broken one is bold red on black. |
| Scenarios.DefaultSetuid | src/lib.rs:570-580 | With the defaults, a set-user-id file (such as mode 0o6750) is white on red. |
| Scenarios.DefaultStickyOtherWritable | src/lib.rs:601-612 | With the defaults, a sticky, other-writable directory (0o1777) is black on green. |
| Scenarios.ExecutableEntryKeepsDirectory | src/lib.rs:460-469 | Adding `ex=01:` styles executables bold and leaves directories bold blue. |
| Scenarios.ZeroKeepsSetuid | src/lib.rs:239-242 | Adding `su=0` keeps Setuid configured, with the all-default style. A set-user-id file gets that style, not the set-group-id style the test at src/lib.rs:582-584 expects. |
| Scenarios.ZerosKeepStickyOtherWritable | src/lib.rs:619-622 | Adding `tw=0:ow=0` keeps both indicators configured with the all-default style. A sticky, other-writable directory stays on StickyAndOtherWritable with that style, not on `st` (white on blue) as the test expects. |
| Scenarios.ZeroKeepsStickyOtherWritable | src/lib.rs:239-242 | Adding `tw=0` keeps such directories on StickyAndOtherWritable, now with the all-default style. This contradicts the test at src/lib.rs:614-617. |
| Scenarios.HardLinksPurple | src/lib.rs:588-597 | Adding `mh=35` makes a plain file with several links purple. |
| Scenarios.MissingFileOwnStyle | src/lib.rs:545-551 | With `mi=01:or=33;44`, MissingFile takes its own bold style. |
| Scenarios.MissingFileFallback | src/lib.rs:553-558 | With `or=33;44`, an unstyled MissingFile falls back to yellow on blue. On top of the defaults, MissingFile keeps the default `mi=00` style instead. |
| Scenarios.ZeroMissingNoFallback | src/lib.rs:560-565 | With `or=33;44:mi=00`, MissingFile is configured and takes the all-default style, not the yellow `or` style the test expects. |
| Scenarios.SuffixOrdering | src/lib.rs:433-448 | With `*.foo=01;35:*README.foo=33;44`, `dummy.foo` is bold purple and `README.foo` is yellow on blue, since the later rule wins. |
| Scenarios.SuffixIgnoresCase | src/lib.rs:450-458 | With `*.O=01;35`, `artifact.o` is bold purple, since suffixes match without regard to case. |
| Scenarios.ComponentItems | src/lib.rs:154-177 | For a path ending in `test-symlink/test-file.png`, the last three items are the directory before them, `test-symlink/` and `test-file.png`, each styled by its own prefix path. |
| Scenarios.PathComponentsScenario | src/lib.rs:625-659 | With `di=34:ln=35:*.png=36`, the items end with a blue directory, `test-symlink/` in purple and `test-file.png` in cyan. This holds when the enclosing directory and the link are styled from their metadata, and `test-file.png` is styled with no metadata. The test's path `test-symlink/test-file.png` does not exist: the link points at the empty `test-dir` (src/lib.rs:630-636), so `symlink_metadata` fails (src/lib.rs:255) and the file is classified as RegularFile (src/lib.rs:326-329). |
| Components.Label | src/lib.rs:161-170 | An item's text, with no contract of its own. `NormalTexts` and `RootExample` state when a separator is added. |
| Components.Items | src/lib.rs:154-177 | The items still to come, with no contract of its own. `ItemsAt` states them item by item, and `StyledComponents.Next` is proved to yield them. |
| Components.PathItems | src/lib.rs:366-372 | The items of a whole path, with no contract of its own. `PathItemsAt` states them item by item. |
| Components.ItemsAt | src/lib.rs:154-177 | There is one item per component, in order. Item `k` is component `k`'s text, with a separator unless it is the last or a prefix/root. It is styled by the path of the first `k + 1` components. |
| Text.Split | src/lib.rs:229-230 | There is always at least one piece, no piece holds the separator, and the pieces joined by the separator give back the input. |
| Text.ToAsciiLower | src/lib.rs:236-237 | Same length, and each character is lowered exactly when it is `A`-`Z`. |
| Components.PathItemsAt | src/lib.rs:366-372 | For a whole path: one item per component, with item `k` styled by the path of components `0..=k`. |
| Components.NormalTexts | src/lib.rs:161-170 | For a path of normal components, the item texts put together are the names joined by the separator. So every separator is painted, in the style of the component before it. |
| Components.FooBarExample | src/lib.rs:362-365 | `foo/bar/test.md` yields `foo/`, `bar/` and `test.md`, styled by `foo`, `foo/bar` and the whole path. |
| Components.RootExample | src/lib.rs:163-165 | `/usr` yields `/` and `usr`: the root gets no second separator. |
| Components.StyledComponents.constructor | src/lib.rs:366-372 | `style_for_path_components` starts with an empty path built so far and the whole path still to come. |
| Components.StyledComponents.Next | src/lib.rs:154-177 | At the end it returns `None` and changes nothing. Otherwise it moves the next component onto the path built so far and returns the first of the remaining items. The items still to come lose exactly that first one. |

## Left out

- `LsColors::from_env` (src/lib.rs:214-219) reads the environment. `FromString` takes the configuration string as an argument instead.
- `LsColors::style_for_path` (src/lib.rs:254-257) calls `Path::symlink_metadata`, an operating-system call. `StyleForPath` and `StyleForPathWithMetadata` take the file name and the metadata as arguments.
- `crate::fs::mode`, `crate::fs::nlink` and `Path::exists` are operating-system queries; `src/fs.rs` is not part of this model. They become the `Metadata` record: file type, 32-bit mode, link count, whether the target exists.
- `#[cfg(unix)]` and `FileTypeExt` (src/lib.rs:304-325): only unix behaviour is modelled, with FIFO, socket and the two device kinds always available.
- `std::path::Component`, `PathBuf`, `OsString`, `file_name()` and `to_str()` are Rust's path parsing. The model takes:
  - a pre-split component list (`Components`);
  - a file name that is `None` when the path has none or it is not UTF-8.
  Path normalisation and non-UTF-8 bytes are not modelled.
- The style `StyledComponents` asks for each prefix path needs file system metadata. It is a function parameter, so the iterator's contract holds for any lookup.
- `HashMap` hashing and iteration order: the indicator table is a Dafny `map`.
- The conversion to `ansi_term` named in the crate documentation (src/lib.rs:12-16) is a foreign library and is not part of this model.
- The test set-up (temporary directories, files, symlinks, permissions and hard links) is file system I/O. In the `Scenarios` lemmas, each entry the test creates is described by preconditions on its `Metadata` (file type, mode bits, link count, whether the target exists). A path that does not exist gets no metadata (`None`). In `PathComponentsScenario`, the style of each prefix path is a precondition on `styleFor`: the enclosing directory and the link are styled from their metadata, and `test-file.png`, which cannot be reached through the link, is styled with none. The directory before `test-symlink` stands for the temporary root, whose own components are not modelled.
- `basic_usage`'s `test.wav` check (src/lib.rs:427-430) depends on the full list of about 150 default suffix rules. Only their shape is proved (`DefaultTables`: every rule starts with `.`), not which rule matches a given name.
- Defaults.DefaultTables: proves that every default suffix rule starts with `.`, not the style of each of the 150 rules. The indicator table, in contrast, is proved entry by entry.
- Indicators.FallbackDepth: Dafny proves it by unfolding the table. It is a restatement of the table for readers, not a derived property.
- `FontStyle::default`, `bold`, `italic` and `underline` (src/style.rs:24-58) are the constants `DefaultFont`, `BoldFont`, `ItalicFont` and `UnderlineFont`.
- The suffix entries of the built-in string are split, in the model, into four literal runs of 28. This is only a device to keep each proof small; the string they join into is the one at src/lib.rs:180.
