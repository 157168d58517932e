# croque prompt model

croque is a shell prompt renderer. It is called once per prompt with the
shell's last exit status, its job count and the shell kind. It gathers what
it can about the working directory: the git repository, a GitHub pull
request and its Actions run, a GitLab merge request, direnv's state, the
Linux distribution, the user and the host. From the configuration it
builds a row of coloured *segments*, each from a template such as
` {{.user}}@{{.host}} ` whose placeholders are replaced in one left-to-right
pass. It then writes the rows with powerline separator glyphs between
neighbouring segments, wrapped in the control sequences each shell needs
around zero-width escape codes.

The Dafny project models:

- **The text primitives the builders rely on** (`Text`):
  - the one-pass placeholder replacement of the `aho_corasick` crate, stated as a leftmost-first scan (at each position the first listed pattern that matches);
  - decimal formatting, joining, splitting and reversal;
  - UTF-8 length and the `as i32` conversion.
- **Shell quoting** (`Shells`): the zero-width markers and the escaping of `\` (bash) and `%` (zsh).
- **Styles** (`StyleModel`): the conversion of a configured style to an ANSI style, and the `#rrggbb` colour parser.
- **Paths** (`Paths`): a component model of absolute and relative paths with parent, file name and push.
- **Path shortening** (`PathShrink`):
  - tilde expansion, aliases, and shortening of every component but the last;
  - `shrink_path` as an imperative loop with an in-place reversal, proved against a recursive specification.
- **The git working tree counters** (`GitInfo`): the counting loop over status entries, proved against a fold, and the head resolution.
- **The loaders of the `gh` and `glab` results** (`GhInfo`, `GlabInfo`, `Process`).
- **Every segment builder of the core**, each with its template law and its default layout:
  - the git status, git user, status, user, path and OS segments;
  - the direnv, GitHub pull request, GitHub Actions and GitLab merge request segments.
- **The presenter** (`Presenter`): a class whose one piece of state, the previous background, picks the separator glyph.
- **The prompt assembly** (`PromptSegments`, `PromptConfig`): the dispatch from segment kind to builder, and the order of the presenter calls for the left and the right prompt.

Everything the program reads from the outside world is a parameter of the model:

- the current directory and whether it is a directory;
- the user and host names, and whether the user is root;
- the head of `/etc/os-release`;
- the results of running `git`, `gh`, `glab` and `direnv`;
- the already-built duration and time segments;
- the escape sequences of a style.

## Model

| member | source | states |
|---|---|---|
| Text.FirstMatch | src/segment/status/mod.rs:22 | The pattern chosen at a position is the first one in declaration order that matches there; none is chosen only when no pattern matches. |
| Text.ReplaceAllNoMatch | src/segment/status/mod.rs:65-67 | A template with no placeholder in it is left unchanged by the replacement. |
| Text.ReplaceAllInert | src/segment/status/mod.rs:65-67 | Literal text that cannot start a placeholder is copied through, and the replacement continues after it. |
| Text.ReplaceAllHole | src/segment/status/mod.rs:65-67 | A placeholder at the front of the template becomes its replacement string, and the rest is replaced independently. |
| Text.ReplaceAllTemplate | src/segment/status/mod.rs:65-67 | For any template made of literals and placeholders, replacing the placeholders yields the same template filled with the replacement strings. |
| Text.FillFrom | src/segment/status/mod.rs:65-67 | A filled template splits into its first part's text followed by the rest, filled. |
| Text.DigitChar | src/segment/gh_pull_request/mod.rs:19-21 | A decimal digit maps to the character whose code is `'0'` plus that digit. |
| Text.NatToString | src/segment/gh_pull_request/mod.rs:19-21 | The decimal form of a natural number is non-empty and all digits, has a leading zero only for zero, and is one character long exactly below ten. |
| Text.ParseNatToString | src/segment/gh_pull_request/mod.rs:19-21 | Reading the decimal digits of a natural number back gives the number. |
| Text.IntToString | src/segment/status/mod.rs:41-42 | An integer's decimal form starts with `-` exactly when it is negative, and is otherwise the natural number's digits. |
| Text.ParseNatString | src/segment/gh_pull_request/mod.rs:19-21 | Parsing the decimal form of a natural number gives it back. |
| Text.ParseNegativeString | src/segment/status/mod.rs:41-42 | Parsing `-` followed by the digits of n gives minus n. |
| Text.IntToStringRoundTrip | src/segment/status/mod.rs:41-42 | Every integer's decimal form parses back to that integer. |
| Text.Split | src/segment/os/mod.rs:86 | Splitting at a separator yields at least one piece, and no piece contains the separator. |
| Text.SplitJoinBack | src/segment/os/mod.rs:86 | Joining the pieces of a split with the separator restores the string. |
| Text.Reverse | src/segment/path/shrink.rs:152-153 | Reversal keeps the length. |
| Text.ReverseIndex | src/segment/path/shrink.rs:152-153 | Position k of the reversal holds the element at n-1-k. |
| Text.ReverseAppend | src/segment/path/shrink.rs:147-153 | Reversing a sequence with one element pushed at the back puts that element first. |
| Text.Utf8Len | src/config/style.rs:116 | The UTF-8 byte length is at least the character count, and equals it exactly when every character is ASCII. |
| Text.AsI32 | src/info/gh.rs:63 | The conversion to i32 gives a value in the i32 range, congruent to the input modulo 2^32, and leaves in-range values unchanged. |
| Shells.Control | src/shell/mod.rs:12-22 | The escape code is wrapped in the shell's two zero-width markers: `\[`/`\]` for bash, `%{`/`%}` for zsh, nothing for fish. |
| Shells.ControlExamples | src/shell/mod.rs:56-64 | The wrapping of the reset sequence matches the three expected strings. |
| Shells.Occurrences | src/shell/mod.rs:24-30 | A character occurs at most as often as the string is long. |
| Shells.UndoubleDouble | src/shell/mod.rs:24-30 | Doubling a character and then undoing the doubling restores the string. |
| Shells.EscapeRoundTrip | src/shell/mod.rs:24-30 | For every shell, unescaping an escaped string gives back the original content. |
| Shells.DoubleLength | src/shell/mod.rs:24-30 | Doubling a character grows the string by that character's occurrences. |
| Shells.EscapeLength | src/shell/mod.rs:24-30 | Bash escaping adds one character per backslash and zsh escaping one per `%`; fish leaves the text unchanged. |
| Shells.DoubleIsReplace | src/shell/mod.rs:24-30 | Doubling a character is the single-pattern replacement of that character by two copies of it. |
| StyleModel.ColorToAnsi | src/config/style.rs:71-89 | A configured colour becomes no colour exactly when it is the default, and otherwise becomes the ANSI colour that maps back to it. |
| StyleModel.ColourRoundTrip | src/config/style.rs:71-89 | Every ANSI colour survives the way through the configured colour. |
| StyleModel.DefaultColor | src/config/style.rs:91-95 | The default colour produces no ANSI colour. |
| StyleModel.Decorate | src/config/style.rs:24-35 | Applying one decoration turns on exactly that flag and keeps the colours and every other flag. |
| StyleModel.DecorateAllFlags | src/config/style.rs:24-35 | Applying a list of decorations to the plain style sets exactly the flags of the listed decorations and sets no colour. |
| StyleModel.AnsiOfMeaning | src/config/style.rs:20-44 | The ANSI style has no foreground (background) exactly when the configured one is the default, and its flags are exactly the configured decorations. |
| StyleModel.AnsiOfDuplicateDecoration | src/config/style.rs:24-35 | Listing a decoration a second time changes nothing. |
| StyleModel.ToAnsi | src/config/style.rs:20-44 | The loop over decorations computes the ANSI style of the configured style. |
| StyleModel.HexValue | src/config/style.rs:119 | The value of n hexadecimal digits is below 16^n. |
| StyleModel.Pow16 | src/config/style.rs:119 | Every power of sixteen is at least one. |
| StyleModel.HexColorTryFrom | src/config/style.rs:114-125 | A colour is parsed exactly when the text is `#` followed by six hexadecimal digits. |
| StyleModel.LowerHexDigitValue | src/config/style.rs:119 | Each lower-case digit that is written reads back as its value. |
| StyleModel.HexValueSix | src/config/style.rs:119-123 | Six digits are worth their three two-digit channels shifted into place. |
| StyleModel.HexValueStep | src/config/style.rs:119 | Appending a digit multiplies the value by sixteen and adds the digit. |
| StyleModel.ChannelsOf | src/config/style.rs:120-123 | Shifting and masking a packed value returns its red, green and blue bytes. |
| StyleModel.HexRoundTrip | src/config/style.rs:114-125 | Every colour written as `#rrggbb` parses back to the same colour. |
| StyleModel.PackedChannels | src/config/style.rs:120-123 | Unpacking the packed channels of a colour gives the colour. |
| StyleModel.FormattedValue | src/config/style.rs:116-119 | A written colour is a valid triplet whose six digits are worth the packed channels. |
| StyleModel.FormatHexDigits | src/config/style.rs:119-123 | Each pair of written digits is worth its channel. |
| StyleModel.HexMixedCase | src/config/style.rs:173-202 | `#12ABef` parses to (0x12, 0xab, 0xef), upper and lower case alike. |
| StyleModel.FromStrRadixUnsigned | src/config/style.rs:119 | Without a leading `+`, the radix-16 parse succeeds only on hexadecimal digits and gives their value. |
| StyleModel.HexAsWrittenAgrees | src/config/style.rs:114-125 | The parser as written and the corrected parser agree on every input that has no `+` after the `#`. |
| StyleModel.Pow16Six | src/config/style.rs:119-123 | Six digits are worth less than 2^24, so the packed value fits three bytes. |
| StyleModel.AsciiDigits | src/config/style.rs:116 | A string of hexadecimal digits is as long in bytes as in characters. |
| StyleModel.HexPlusSignAccepted | src/config/style.rs:114-125 | The parser as written accepts `#+12345` as (0x01, 0x23, 0x45); the corrected parser rejects it. |
| StyleModel.PlusSignedDigits | src/config/style.rs:119 | The radix-16 parse reads `+12345` as 0x12345. |
| Process.Decoded | src/info/gh.rs:28-58 | A command's result is available exactly when it was spawned, exited successfully and its output decoded. |
| SegmentModel.Spaced | src/segment/gh_pull_request/mod.rs:23-33 | An icon part is empty exactly when the icon is, and is otherwise a space followed by the icon. |
| SegmentModel.Counted | src/segment/gh_pull_request/mod.rs:35-41 | A counter part is empty exactly when the count is not positive, and is otherwise a space, the icon and a decimal form that parses back to the count. |
| Paths.SplitComponents | src/segment/path/shrink.rs:113-150 | Splitting a path at `/` yields only non-empty components free of `/`. |
| Paths.ParsePath | src/segment/path/shrink.rs:113-150 | A parsed path is well formed, and is absolute exactly when the text starts with `/`. |
| Paths.ParentPush | src/segment/path/shrink.rs:120-149 | A path with components has a parent, and pushing its file name onto that parent restores the path. |
| Paths.ParentNone | src/segment/path/shrink.rs:120-133 | A path has no parent exactly when it is the root or the empty relative path. |
| Paths.JoinNonEmpty | src/segment/path/shrink.rs:155 | Joining components whose first one is non-empty starts with that component's first character. |
| Paths.SplitNoSeparator | src/segment/path/shrink.rs:113-150 | Text without `/` is absorbed into the component being read. |
| Paths.SplitJoin | src/segment/path/shrink.rs:113-150 | Splitting the `/`-join of valid components gives back the components. |
| Paths.ParseRoundTrip | src/segment/path/shrink.rs:113-150 | Parsing the written form of a valid path gives back the path. |
| PathShrink.ExpandTilde | src/segment/path/shrink.rs:7-22 | Without a home, and for text not starting with `~`, the path is the text itself; `~` alone is the home, `~/rest` is the home with the rest pushed, and `~name` is taken as the path it spells: every input falls under one of these cases. |
| PathShrink.ExpandTildeExamples | src/segment/path/shrink.rs:24-47 | The five expansions of the source's test. |
| PathShrink.ShrinkFileName | src/segment/path/shrink.rs:49-67 | The shortened name is a prefix of the name: empty for length zero, otherwise the given number of characters, one more for a dot-name, capped at the name's length. |
| PathShrink.ShrinkFileNameExamples | src/segment/path/shrink.rs:69-86 | The thirteen shortenings of the source's test, including a multibyte name. |
| PathShrink.ExpandAliases | src/segment/path/shrink.rs:103-109 | Every alias keeps its text and has its path tilde-expanded, in order. |
| PathShrink.FindAlias | src/segment/path/shrink.rs:115 | The alias found is the first whose path equals the current path; none is found only when no alias has that path. |
| PathShrink.Segments | src/segment/path/shrink.rs:114-150 | The walk to the root produces at least one segment and at most one per component plus one. |
| PathShrink.SegmentsStep | src/segment/path/shrink.rs:120-149 | Without an alias at a path with components, the walk continues at the parent and appends this component's text. |
| PathShrink.PushStep | src/segment/path/shrink.rs:147-153 | Pushing the next text onto the reversed list keeps the whole path equal to the unvisited part followed by the reversal. |
| PathShrink.ReverseInPlace | src/segment/path/shrink.rs:152-153 | The array is reversed in place. |
| PathShrink.ShrinkPath | src/segment/path/shrink.rs:95-156 | The loop with its reversed list and in-place reversal returns the shortened path that the recursive walk specifies. |
| PathShrink.InnerTexts | src/segment/path/shrink.rs:136-147 | The texts of the first k components are their shortened or unshortened names, one per component. |
| PathShrink.PrefixOfPrefix | src/segment/path/shrink.rs:120 | Taking a prefix of a prefix is a prefix of the path. |
| PathShrink.InnerSegments | src/segment/path/shrink.rs:114-150 | With no alias on the way to the root, the walk from a non-first prefix yields the root text followed by the inner texts of that prefix. |
| PathShrink.WalkWithoutAlias | src/segment/path/shrink.rs:114-150 | With no alias on the way, the walk yields the root text, the inner texts, and the last component unshortened. |
| PathShrink.JoinRooted | src/segment/path/shrink.rs:155 | An empty root segment joined in front gives a leading `/`. |
| PathShrink.DisabledShowsPath | src/segment/path/shrink.rs:136-155 | With shortening off and no alias on the way, an absolute path is shown as written. |
| PathShrink.DisabledTextsAreComponents | src/segment/path/shrink.rs:136-145 | With shortening off, the inner texts and the file name are exactly the path's components. |
| PathShrink.AliasAtPath | src/segment/path/shrink.rs:115-118 | At the path of the first matching alias, the walk stops with that alias's text. |
| PathShrink.ExpandTestAliases | src/segment/path/shrink.rs:162-175 | The test's two aliases expand to `/home/ayaka/.Trash` and `/home/ayaka`. |
| PathShrink.ExpandTrash | src/segment/path/shrink.rs:165-169 | `~/.Trash` expands under the test's home. |
| PathShrink.ParentOf | src/segment/path/shrink.rs:120-140 | The parent of a path drops its last component, which is its file name. |
| PathShrink.NoTestAlias | src/segment/path/shrink.rs:115 | A path that is neither of the two alias paths finds no alias. |
| PathShrink.StepToHome | src/segment/path/shrink.rs:114-150 | A child of the home ends its walk with the home alias `~`. |
| PathShrink.TestShrunk | src/segment/path/shrink.rs:176-266 | The test's calls shorten through the expanded aliases. |
| PathShrink.ReposSegments | src/segment/path/shrink.rs:176-198 | The walk from `~/repos` yields `~` and `r` (or `repos` with shortening off). |
| PathShrink.RepoASegments | src/segment/path/shrink.rs:176-198 | The walk from `~/repos/repo_a` yields `~`, the shortened `repos` and `repo_a`. |
| PathShrink.ShrinkRepoA | src/segment/path/shrink.rs:176-187 | `~/repos/repo_a` is shown as `~/r/repo_a`. |
| PathShrink.ShrinkRepoADisabled | src/segment/path/shrink.rs:188-198 | With shortening off, it is shown as `~/repos/repo_a`. |
| PathShrink.JoinThree | src/segment/path/shrink.rs:155 | Joining three texts puts `/` between them. |
| PathShrink.JoinFour | src/segment/path/shrink.rs:155 | Joining four texts puts `/` between them. |
| PathShrink.RepoSrcSegments | src/segment/path/shrink.rs:200-210 | The project root is not shortened: `~`, `r`, `repo_a`, `src`. |
| PathShrink.ShrinkProjectRoot | src/segment/path/shrink.rs:200-210 | The path under a project root is shown as `~/r/repo_a/src`. |
| PathShrink.CroqueSegments | src/segment/path/shrink.rs:212-222 | A dot-directory keeps its dot plus two characters: `~`, `.co`, `croque`. |
| PathShrink.ShrinkDotDirectory | src/segment/path/shrink.rs:212-222 | `~/.config/croque` is shown as `~/.co/croque`. |
| PathShrink.DaySegments | src/segment/path/shrink.rs:224-234 | Shortening counts characters, not bytes: `今日の献立` becomes `今日`. |
| PathShrink.ShrinkMultibyteName | src/segment/path/shrink.rs:224-234 | The multibyte path is shown as `~/今日/2023 02 14`. |
| PathShrink.TrashItemSegments | src/segment/path/shrink.rs:236-246 | The empty `.Trash` alias yields an empty first segment. |
| PathShrink.ShrinkHiddenByAlias | src/segment/path/shrink.rs:236-246 | `~/.Trash/a` is shown as `/a`. |
| PathShrink.ShrinkRoot | src/segment/path/shrink.rs:263-266 | The root is shown as `/`. |
| PathShrink.HomeDirSegments | src/segment/path/shrink.rs:248-256 | `/home` walks to an empty root text and `home` (`h` when not first). |
| PathShrink.ShrinkHomeDir | src/segment/path/shrink.rs:248-252 | `/home` is shown as `/home`, since the last component is never shortened. |
| PathShrink.NyanSegments | src/segment/path/shrink.rs:258-261 | `/home/nyan` walks to an empty root text, `h` and `nyan`. |
| PathShrink.ShrinkOtherUser | src/segment/path/shrink.rs:258-261 | Another user's home is shown as `/h/nyan`. |
| GitInfo.CountWith | src/info/git.rs:132-163 | No counter exceeds the number of entries. |
| GitInfo.CountWithPositive | src/info/git.rs:34-53 | A counter is positive exactly when some entry carries one of its flags. |
| GitInfo.Hits | src/info/git.rs:136 | A status intersects a single flag exactly when it contains it. |
| GitInfo.HitsEither | src/info/git.rs:142 | A status intersects two flags exactly when it contains one of them. |
| GitInfo.TallyAppend | src/info/git.rs:133-162 | Counting one more entry updates the tally of the previous entries by that entry alone. |
| GitInfo.CountEntry | src/info/git.rs:134-162 | The nine tests of one entry raise each counter whose flags the entry intersects. |
| GitInfo.WorkingTreeStatusOf | src/info/git.rs:112-167 | The loop over the status entries computes their tally, and all zero counters when the query fails. |
| GitInfo.TallyBounded | src/info/git.rs:132-163 | Each of the nine counters is bounded by the number of entries. |
| GitInfo.FailedQueryReportsNothing | src/info/git.rs:120-132 | A failed status query reports no change of any kind. |
| GitInfo.AnyWithUnion | src/info/git.rs:55-68 | Some entry carries a flag of a union exactly when some entry carries a flag of either part. |
| GitInfo.TallyKinds | src/info/git.rs:34-53 | Each of the five kinds of change (new, deleted, modified, renamed, conflicted) is reported exactly when some entry carries it in the work tree or in the index. |
| GitInfo.TallyStages | src/info/git.rs:55-68 | Unstaged (staged) changes are reported exactly when some entry carries a work-tree (index) flag. |
| GitInfo.HeadStatus | src/info/git.rs:81-110 | The head is a branch when unborn (default branch or `master`) or on a branch, a tag when the target is a tag, else a commit; unknown names are `?`. |
| GitStatusSegment.PatternsArePlaceholders | src/segment/git_status/mod.rs:18-23 | The four placeholders are distinct and none is a prefix of another. |
| GitStatusSegment.ShortenHash | src/segment/git_status/mod.rs:27-33 | The shortened hash is a prefix of the hash, as long as the smaller of its length and the limit. |
| GitStatusSegment.Labelled | src/segment/git_status/mod.rs:41-68 | A name with an empty icon is the name alone, and otherwise the icon, a space, then the name. |
| GitStatusSegment.HeadTextShape | src/segment/git_status/mod.rs:35-70 | `master`/`main` hidden by the setting show only the branch icon; otherwise the head shows as icon, space, and name (the commit hash shortened). |
| GitStatusSegment.HeadExamples | src/segment/git_status/mod.rs:35-70 | Hidden and shown main branches, another branch, a tag without icon and a shortened commit are rendered as expected. |
| GitStatusSegment.BuildWorkingTreeStatus | src/segment/git_status/mod.rs:72-100 | The imperative appends compute the marks with one leading space, or nothing. |
| GitStatusSegment.RanksConcat | src/segment/git_status/mod.rs:79-93 | Joining two strings whose marks lie in a rank range keeps them in that range. |
| GitStatusSegment.AscendingConcat | src/segment/git_status/mod.rs:79-93 | Joining two ascending strings whose ranks do not overlap stays ascending. |
| GitStatusSegment.Mark | src/segment/git_status/mod.rs:79-93 | A mark contains its character exactly when its kind is present, and is at most one character. |
| GitStatusSegment.DefaultMarks | src/segment/git_status/mod.rs:79-93 | With the default icons the marks are `+`, `-`, `…`, `→` and the conflict glyph, each present with its kind. |
| GitStatusSegment.MarksFacts | src/segment/git_status/mod.rs:79-99 | Each default mark occurs exactly when its kind is present; the marks are empty only when none is, and contain no space. |
| GitStatusSegment.MarkRanked | src/segment/git_status/mod.rs:79-93 | A single mark is ascending and within its rank. |
| GitStatusSegment.AppendMark | src/segment/git_status/mod.rs:79-93 | Appending the next mark keeps the marks ascending. |
| GitStatusSegment.MarksAscending | src/segment/git_status/mod.rs:79-93 | The default marks always appear in the fixed order, each at most once. |
| GitStatusSegment.DefaultWorkingTreeText | src/segment/git_status/mod.rs:72-100 | With the default icons each mark appears exactly when its kind of change is present; the part is empty only for a clean tree, else one leading space. |
| GitStatusSegment.DefaultWorkingTreeOrder | src/segment/git_status/mod.rs:72-100 | With the default icons the working-tree part is ascending in the fixed order. |
| GitStatusSegment.WorkingTreeTextOfEntries | src/info/git.rs:132-163 | Read against the status entries, each default mark appears exactly when some entry carries that kind of change. |
| GitStatusSegment.UpstreamText | src/segment/git_status/mod.rs:102-111 | There is no upstream part exactly when the branch is neither behind nor ahead. |
| GitStatusSegment.UpstreamPart | src/segment/git_status/mod.rs:134-138 | Without an upstream the part is empty. |
| GitStatusSegment.UpstreamUniform | src/segment/git_status/mod.rs:102-111 | The four cases are one rule: a space, then the behind count after its icon if non-zero, then the ahead count after its icon if non-zero. |
| GitStatusSegment.UpstreamExamples | src/segment/git_status/mod.rs:102-111 | Even, ahead, behind and diverged branches are rendered as expected. |
| GitStatusSegment.ProgressOf | src/segment/git_status/mod.rs:145-153 | The style is chosen in priority order: conflicted, then unstaged, then staged, otherwise clean. |
| GitStatusSegment.ProgressOfEntries | src/segment/git_status/mod.rs:145-153 | Read against the entries: conflicted exactly when an entry is; clean exactly when no entry carries any flag. |
| GitStatusSegment.Replacements | src/segment/git_status/mod.rs:140-143 | Four replacement strings, the remote one empty. |
| GitStatusSegment.Build | src/segment/git_status/mod.rs:121-157 | There is a segment exactly when there is git information, styled by the working tree's progress. |
| GitStatusSegment.BuildFillsTemplate | src/segment/git_status/mod.rs:140-143 | Any template of literals and placeholders is filled with the head, working-tree and upstream texts. |
| GitStatusSegment.DefaultPartsSpellContent | src/config/git_status.rs:56-58 | The default template is a space, the four placeholders and a space. |
| GitStatusSegment.FillDefaultParts | src/config/git_status.rs:56-58 | Filling the default layout gives a space, the four strings and a space. |
| GitStatusSegment.BuildDefault | src/segment/git_status/mod.rs:121-157 | The default segment is a space, the head, the working tree, the upstream and a space. |
| StatusSegment.PatternsArePlaceholders | src/segment/status/mod.rs:22 | The three placeholders are distinct and none is a prefix of another. |
| StatusSegment.ExitStatusText | src/segment/status/mod.rs:39-45 | Success shows the success icon; failure shows the failure icon, followed by a space and a decimal that parses back to the exit code when the code is displayed. |
| StatusSegment.Replacements | src/segment/status/mod.rs:39-57 | Three replacement strings: the exit status, the root indicator and the jobs indicator. |
| StatusSegment.Build | src/segment/status/mod.rs:34-73 | A segment is always built, in the success style exactly for exit code zero and in the failure style otherwise. |
| StatusSegment.BuildFillsTemplate | src/segment/status/mod.rs:65-67 | Any template is filled with the three replacement strings. |
| StatusSegment.DefaultPartsSpellContent | src/config/status.rs:20-22 | The default template is a space, the three placeholders and a space. |
| StatusSegment.FillDefaultParts | src/config/status.rs:20-22 | Filling the default layout gives a space, the three strings and a space. |
| StatusSegment.BuildDefault | src/segment/status/mod.rs:34-73 | The default segment is a space, the exit status, the root and jobs indicators (a space and the icon, when on) and a space. |
| StatusSegment.BuildSucceeded | src/segment/status/mod.rs:95-104 | Exit code 0 shows ` ✓ `. |
| StatusSegment.BuildFailedWithCode | src/segment/status/mod.rs:105-114 | Exit code 1 with the code displayed shows the failure icon and `1`. |
| StatusSegment.BuildFailedWithoutCode | src/segment/status/mod.rs:115-124 | Exit code 1 without the code shows only the failure icon. |
| StatusSegment.BuildInterruptedAsRootWithJobs | src/segment/status/mod.rs:125-134 | Exit code 130 as root with a job shows the code, the root icon and the jobs icon. |
| UserSegment.PatternsArePlaceholders | src/segment/user/mod.rs:33 | The two placeholders are distinct and neither is a prefix of the other. |
| UserSegment.Replacements | src/segment/user/mod.rs:53-54 | The user and host names, each `?` when unknown. |
| UserSegment.Build | src/segment/user/mod.rs:50-61 | A segment is always built, in the configured style. |
| UserSegment.BuildFillsTemplate | src/segment/user/mod.rs:55 | Any template is filled with the user and host names. |
| UserSegment.DefaultPartsSpellContent | src/config/user.rs:23-25 | The default template is ` {{.user}}@{{.host}} `. |
| UserSegment.FillDefaultParts | src/config/user.rs:23-25 | Filling the default layout gives a space, the user, `@`, the host and a space. |
| UserSegment.BuildDefault | src/segment/user/mod.rs:50-61 | The default segment is ` user@host ` with `?` for unknown names. |
| UserSegment.BuildExamples | src/segment/user/mod.rs:81-101 | The three cases of the source's test: both names, no user, no host. |
| GitUserSegment.Build | src/segment/git_user/mod.rs:7-16 | There is a segment exactly when there is git information with a user name, in the configured style. |
| GitUserSegment.BuildFillsTemplate | src/segment/git_user/mod.rs:12 | Any template is filled with the user name. |
| GitUserSegment.BuildWithoutPlaceholder | src/segment/git_user/mod.rs:12 | A template without the placeholder is shown unchanged. |
| GitUserSegment.BuildDefault | src/config/git_user.rs:23-25 | The default segment is the user icon, the name and a space. |
| PathSegment.Build | src/segment/path/mod.rs:26-48 | A segment is always built: normal style when the directory is known and exists, error style otherwise. |
| PathSegment.BuildDefault | src/config/path.rs:31-33 | The default segment is the shown path between two spaces. |
| PathSegment.BuildUnknown | src/segment/path/mod.rs:32-34 | An unknown directory is shown as ` <unknown> `. |
| PathSegment.DisabledShowsWholePath | src/segment/path/mod.rs:32-33 | With shortening off, an absolute directory is shown as written. |
| PathSegment.InnerTextShrinks | src/segment/path/mod.rs:32-33 | Without a project root, every inner component is shortened. |
| PathSegment.CroqueSrcInner | src/segment/path/mod.rs:76-80 | The inner components of the test path shorten to `h a r g R c`. |
| PathSegment.CroqueSrcSegments | src/segment/path/mod.rs:76-80 | The walk of the test path gives the root text, the six initials and `src`. |
| PathSegment.CroqueSrcJoined | src/segment/path/mod.rs:76-80 | Those segments join to `/h/a/r/g/R/c/src`. |
| PathSegment.ShownCroqueSrc | src/segment/path/mod.rs:76-80 | The default configuration shows the test path as `/h/a/r/g/R/c/src`. |
| PathSegment.BuildCroqueSrc | src/segment/path/mod.rs:76-80 | The test path's segment is ` /h/a/r/g/R/c/src `. |
| PathSegment.BuildShows | src/segment/path/mod.rs:36 | With the default template, the segment is whatever path is shown, between two spaces. |
| OsSegment.DistributionOf | src/segment/os/mod.rs:94-103 | A recognised identifier names a distribution whose identifier it is. |
| OsSegment.DistributionOfId | src/segment/os/mod.rs:94-103 | Every distribution's identifier is recognised as it. |
| OsSegment.StripQuotes | src/segment/os/mod.rs:88-92 | Quotes on both ends are removed; a value not ending in a quote is unchanged; a value ending (but not starting) in a quote loses that quote. |
| OsSegment.StripQuotesExamples | src/segment/os/mod.rs:88-92 | Quoted, bare, half-open and single-quote values. |
| OsSegment.Value | src/segment/os/mod.rs:87 | A line has a value for a key exactly when it starts with the key and `=`. |
| OsSegment.DetectDistribution | src/segment/os/mod.rs:76-112 | The loop over the lines of the file head, with its switch from `ID` to `ID_LIKE`, computes the recursive scan. |
| OsSegment.ScanSound | src/segment/os/mod.rs:85-111 | A detected distribution is a known one, named on some line of the file. |
| OsSegment.ScanFirstId | src/segment/os/mod.rs:85-107 | When the first `ID` line names a known distribution, that is the result. |
| OsSegment.ScanWithoutKeys | src/segment/os/mod.rs:85-111 | A file without `ID` and `ID_LIKE` lines detects nothing. |
| OsSegment.ScanUbuntu | src/segment/os/mod.rs:85-107 | A typical Ubuntu file is detected as Ubuntu. |
| OsSegment.ScanDerivative | src/segment/os/mod.rs:104-105 | An unknown `ID` falls back to a quoted `ID_LIKE`. |
| OsSegment.ScanUnknownLike | src/segment/os/mod.rs:105 | An unrecognised `ID_LIKE` value stops the scan with nothing, even if a later line would match. |
| OsSegment.ScanLikeBeforeId | src/segment/os/mod.rs:104 | An `ID_LIKE` line before `ID` is ignored. |
| OsSegment.Build | src/segment/os/mod.rs:21-40 | A segment is always built: a detected distribution shows its own entry's content in its own entry's style, and nothing detected shows the generic Linux entry. |
| OsSegment.WithEntry | src/config/os.rs:7-38 | Replacing one distribution's configuration entry changes that distribution's entry and keeps every other one. |
| OsSegment.BuildUsesOwnEntry | src/segment/os/mod.rs:27-38 | Whatever entry a distribution is configured with is shown verbatim in its style, and changing it leaves every other distribution's segment unchanged. |
| OsSegment.DefaultIconsDistinct | src/config/os.rs:55-300 | Different distributions get different default contents. |
| DirenvSegment.LoadStatus | src/segment/direnv/mod.rs:74-87 | The status is available exactly when direnv ran, succeeded and its output decoded. |
| DirenvSegment.RcStateOf | src/segment/direnv/mod.rs:29-39 | Loaded exactly for allowed code 0, disallowed exactly for code 2, found otherwise (including no loaded rc). |
| DirenvSegment.Build | src/segment/direnv/mod.rs:22-47 | There is a segment exactly when a status with a found rc exists, styled by the rc state. |
| DirenvSegment.BuildFillsTemplate | src/segment/direnv/mod.rs:41 | Any template is filled with the icon of the rc state. |
| DirenvSegment.BuildDefault | src/config/direnv.rs:23-25 | The default segment is ` .`, the state icon and a space. |
| DirenvSegment.DefaultShowsState | src/config/direnv.rs:53-62 | Two default segments agree exactly when their rc states do. |
| DirenvSegment.FailedRunShowsNothing | src/segment/direnv/mod.rs:74-82 | A direnv run that fails to start or exits unsuccessfully shows no segment. |
| DirenvSegment.OtherCodeIsFound | src/segment/direnv/mod.rs:38 | An rc loaded with code 1 is shown as merely found. |
| GhActionsSegment.Build | src/segment/gh_actions/mod.rs:47-58 | There is a segment exactly when there is GitHub information with an Actions run, styled by its status. |
| GhActionsSegment.BuildFillsTemplate | src/segment/gh_actions/mod.rs:54 | Any template is filled with the status icon. |
| GhActionsSegment.BuildDefault | src/config/gh_actions.rs:30-32 | The default segment is the icon between two spaces. |
| GhActionsSegment.DefaultShowsStatus | src/config/gh_actions.rs:68-87 | Two default segments agree exactly when their run statuses do. |
| GhInfo.ParseState | src/info/gh.rs:20-26 | A parsed state is the one with that name. |
| GhInfo.StateNameRoundTrip | src/info/gh.rs:20-26 | Every state's name parses back to it. |
| GhInfo.PullRequestOf | src/info/gh.rs:60-73 | Number, state and draft flag are copied; comments are the comments plus the reviews as an i32; approved exactly for the decision `APPROVED`. |
| GhInfo.CommentCount | src/info/gh.rs:63 | Below 2^31 the comment count is the exact sum. |
| GhInfo.OnlyApprovedApproves | src/info/gh.rs:65 | Other decisions, and `approved` in lower case, do not approve. |
| GhInfo.LoadPullRequest | src/info/gh.rs:28-74 | A pull request is loaded exactly when `gh` ran, succeeded and its output decoded. |
| GhInfo.LoadGhInfo | src/info/gh.rs:76-80 | The GitHub information exists exactly when the pull request loads, and carries it. |
| GhPullRequestSegment.PatternsArePlaceholders | src/segment/gh_pull_request/mod.rs:15 | The three placeholders are distinct and none is a prefix of another. |
| GhPullRequestSegment.ShownOf | src/segment/gh_pull_request/mod.rs:23-29 | An open pull request is shown as draft or open by its flag; closed and merged ones ignore the flag. |
| GhPullRequestSegment.StatePart | src/segment/gh_pull_request/mod.rs:23-33 | The state part is empty exactly when the icon is, and is otherwise a space and the icon. |
| GhPullRequestSegment.Replacements | src/segment/gh_pull_request/mod.rs:62-71 | Three strings, the first a decimal that parses back to the number. |
| GhPullRequestSegment.Build | src/segment/gh_pull_request/mod.rs:60-76 | There is a segment exactly when there is GitHub information, styled by the shown state. |
| GhPullRequestSegment.BuildFillsTemplate | src/segment/gh_pull_request/mod.rs:68-71 | Any template is filled with the number, state and comment parts. |
| GhPullRequestSegment.HashPartsSpellLayout | src/segment/gh_pull_request/mod.rs:15 | The `#`-layout is ` #`, the three placeholders and a space. |
| GhPullRequestSegment.FillHashParts | src/segment/gh_pull_request/mod.rs:68-71 | Filling the `#`-layout gives ` #`, the three strings and a space. |
| GhPullRequestSegment.BuildHashLayout | src/segment/gh_pull_request/mod.rs:60-76 | With the `#`-layout the segment is ` #`, the number, the state part, the comment part and a space. |
| GhPullRequestSegment.BuildMergedDraft | src/segment/gh_pull_request/mod.rs:23-48 | A merged draft with no comments shows ` #12 M ` in the merged style. |
| GlabInfo.StateOf | src/info/glab.rs:73-77 | `merged` and `closed` are recognised; every other name is open. |
| GlabInfo.StateNameRoundTrip | src/info/glab.rs:73-77 | Every state's name maps back to it. |
| GlabInfo.PipelineOf | src/info/glab.rs:79-89 | No pipeline is none; the four named statuses map to themselves; any other is pending. |
| GlabInfo.UnknownStatusIsPending | src/info/glab.rs:79-89 | `created` and `manual` count as pending. |
| GlabInfo.AnyApproval | src/info/glab.rs:91-94 | Approved exactly when some note is a system note reading `approved this merge request`. |
| GlabInfo.MergeRequestOf | src/info/glab.rs:73-95 | Number, comments and draft flag are copied; state and pipeline are mapped; approved exactly when some note is the system approval. |
| GlabInfo.OnlySystemApprovalApproves | src/info/glab.rs:91-94 | Without a system approval note the request is not approved. |
| GlabInfo.ApprovalNoteApproves | src/info/glab.rs:91-94 | Adding a system approval note approves the request. |
| GlabInfo.LoadMergeRequest | src/info/glab.rs:37-96 | A merge request is loaded exactly when `glab` ran, succeeded and its output decoded. |
| GlabInfo.LoadGlabInfo | src/info/glab.rs:98-102 | The GitLab information exists exactly when the merge request loads, and carries it. |
| GlabSegment.PatternsArePlaceholders | src/segment/glab_merge_request/mod.rs:15-22 | The five placeholders are distinct and none is a prefix of another. |
| GlabSegment.ShownOf | src/segment/glab_merge_request/mod.rs:30-36 | An open merge request is shown as draft or open by its flag; closed and merged ones ignore the flag. |
| GlabSegment.StatePart | src/segment/glab_merge_request/mod.rs:30-40 | The state part is empty exactly when the icon is, and is otherwise a space and the icon. |
| GlabSegment.PipelinePart | src/segment/glab_merge_request/mod.rs:42-51 | The pipeline part is empty exactly without a pipeline, and is otherwise a space and the status icon. |
| GlabSegment.ApprovedPart | src/segment/glab_merge_request/mod.rs:53-59 | The approval part is empty exactly when not approved, and is otherwise a space and the icon. |
| GlabSegment.Replacements | src/segment/glab_merge_request/mod.rs:96-105 | Five strings, the first a decimal that parses back to the number. |
| GlabSegment.Build | src/segment/glab_merge_request/mod.rs:85-110 | There is a segment exactly when there is GitLab information, styled by the shown state. |
| GlabSegment.BuildFillsTemplate | src/segment/glab_merge_request/mod.rs:96-105 | Any template is filled with the five parts. |
| GlabSegment.DefaultPartsSpellContent | src/config/glab_merge_request.rs:27-29 | The default template is the GitLab icon, `!`, the number, state and comments placeholders and a space. |
| GlabSegment.FillDefaultParts | src/config/glab_merge_request.rs:27-29 | Filling the default layout gives the prefix, the number, the state, the comments and a space. |
| GlabSegment.BuildDefault | src/segment/glab_merge_request/mod.rs:85-110 | The default segment shows the number, the state part and the comment part; pipeline and approval are not shown. |
| GlabSegment.BuildDefaultOpen | src/config/glab_merge_request.rs:64-83 | An open request with comments shows no state icon, since that default icon is empty. |
| GlabSegment.BuildDefaultDraft | src/config/glab_merge_request.rs:64-83 | A draft shows the draft icon in the draft style. |
| GlabSegment.BuildPipelineAndApproval | src/segment/glab_merge_request/mod.rs:92-103 | A template of the pipeline and approval placeholders shows those two parts. |
| GlabSegment.FillPipelineAndApproval | src/segment/glab_merge_request/mod.rs:96-105 | Filling that layout gives the pipeline string followed by the approval string. |
| Presenter.SegmentShowsContent | src/segment/presenter.rs:26-32 | A written segment is its style's prefix and suffix wrapped as control text around the escaped content, which unescapes to the content. |
| Presenter.SeparatorOf | src/segment/presenter.rs:50-67 | Same background: the wire glyph in white; otherwise the solid glyph in the previous background (white if none) on the next background. |
| Presenter.ClosureOf | src/segment/presenter.rs:34-48 | After a coloured segment the solid glyph in its background closes the row; otherwise the wire glyph in white. |
| Presenter.LastBg | src/segment/presenter.rs:76 | After a row, the remembered background is the last segment's, or the old one when the row is empty. |
| Presenter.BodyPrefix | src/segment/presenter.rs:70-77 | Each iteration extends the written text by a separator and the segment, and remembers its background. |
| Presenter.Associative | src/segment/presenter.rs:70-77 | Writing in pieces is writing the concatenation. |
| Presenter.ChainedSnoc | src/segment/presenter.rs:70-77 | Chaining one more segment appends its separator and text. |
| Presenter.BodyFromFront | src/segment/presenter.rs:70-77 | A row is its first segment followed by the rest, each after its separator. |
| Presenter.SnocSplit | src/segment/presenter.rs:70-77 | The last segment of a row of two or more splits off from the chain. |
| Presenter.LineIgnoresEarlierRows | src/segment/presenter.rs:69-82 | A non-empty row is written the same whatever background the previous row left, since the first segment has no separator. |
| Presenter.SingleSegmentLine | src/segment/presenter.rs:69-82 | A single segment is written, then closed by its own background. |
| Presenter.SameBackgroundUsesWire | src/segment/presenter.rs:50-56 | Two segments on the same background are joined by the white wire glyph. |
| Presenter.BackgroundChangeUsesSolid | src/segment/presenter.rs:57-66 | A change of background is drawn with the solid glyph, the old background on the new. |
| Presenter.RowStep | src/segment/presenter.rs:70-77 | One loop iteration preserves the invariant that the output is the row written so far. |
| Presenter.RowStart | src/segment/presenter.rs:70-77 | The first iteration writes the first segment without a separator. |
| Presenter.Presenter.constructor | src/segment/presenter.rs:17-24 | A new presenter has written nothing and remembers no background. |
| Presenter.Presenter.DisplaySegment | src/segment/presenter.rs:26-32 | Appends the segment's text and keeps the background. |
| Presenter.Presenter.DisplayLeftClosure | src/segment/presenter.rs:34-48 | Appends the closing glyph chosen by the remembered background. |
| Presenter.Presenter.DisplayLeftSeparator | src/segment/presenter.rs:50-67 | Appends the separator between the remembered and the next background. |
| Presenter.Presenter.DisplaySegments | src/segment/presenter.rs:70-77 | The loop appends the row body and remembers the last segment's background. |
| Presenter.Presenter.DisplayLine | src/segment/presenter.rs:69-82 | Appends the row body and its closure. |
| Presenter.Presenter.NextLine | src/segment/presenter.rs:84-87 | Appends a newline and forgets the background. |
| Presenter.Presenter.Finish | src/segment/presenter.rs:89-91 | Appends one space. |
| PromptSegments.BuildSegment | src/segment/mod.rs:86-101 | Each kind goes to its builder: OS, path, status and user always show; each other kind shows exactly when its information exists; duration and time pass through. |
| PromptSegments.Shown | src/segment/mod.rs:103-108 | At most as many kinds show as are listed. |
| PromptSegments.BuildSegments | src/segment/mod.rs:103-108 | The built row has one segment per kind that shows. |
| PromptSegments.BuildSegmentsAppend | src/segment/mod.rs:103-108 | Building two lists of kinds in a row is building each and concatenating. |
| PromptSegments.BuildSegmentsAllShown | src/segment/mod.rs:103-108 | When every kind shows, the row is exactly their segments, in order. |
| PromptSegments.PrintSegments | src/segment/mod.rs:111-141 | The loop over the rows issues the specified sequence of presenter calls. |
| PromptSegments.RowLines | src/segment/mod.rs:118-131 | One row call per configured row, each the row's left segments and, except on the last row, its right segments. |
| PromptSegments.JoinedShape | src/segment/mod.rs:118-131 | n rows give 2n-1 calls, none of which ends the left prompt. |
| PromptSegments.JoinedRowAt | src/segment/mod.rs:118-131 | Row i is drawn by call 2i: rows keep their order. |
| PromptSegments.JoinedBreakAt | src/segment/mod.rs:119-121 | The call just before every row but the first is a line break. |
| PromptSegments.JoinedPrefix | src/segment/mod.rs:118-131 | Each loop round adds a line break (not before the first row) and then that row's call. |
| PromptSegments.FinishedLayout | src/segment/mod.rs:118-133 | Rows at even positions, breaks between them, and a single `finish_left` as the last call. |
| PromptSegments.LeftPrompt | src/segment/mod.rs:118-133 | The left prompt draws every row (the last without its right side), with line breaks between, then ends the left prompt exactly once, last. |
| PromptSegments.RightPrompt | src/segment/mod.rs:134-138 | The right prompt draws only the last row's right segments, and nothing without rows. |
| PromptSegments.TwoRowPrompt | src/segment/mod.rs:118-133 | Two rows are drawn as first row, line break, last row, then `finish_left`. |
| PromptSegments.DefaultLeftPrompt | src/config/mod.rs:33-44 | The default rows draw OS, user and path with the time on the right, a line break, then status and duration. |
| PromptSegments.AlwaysShown | src/segment/mod.rs:89-93 | The OS, user and path segments always show. |

## Left out

- The duration and time segments are outside this model: they depend on floating point and the clock. Their built segments are passed in.
- The git queries through `git2` are outside this model. Status entries, the head reference, the upstream counts and the user name are parameters.
  - Remote statuses (`src/info/git.rs:187-200`) are not modelled; the git status template's remote placeholder is always replaced by the empty string (`src/segment/git_status/mod.rs:142`).
- Running `gh`, `glab` and `direnv`, and decoding their JSON, are outside this model. A command's outcome is a `CommandOutput`: spawn failure, or an exit status with the decoded value or nothing.
- The ANSI escape bytes of the terminal library are outside this model. A style's prefix and suffix are two injected functions.
- Configuration loading, the command line and the `init`/`config` commands are outside this model. So are the macOS and Windows branches (the Windows root text, the macOS OS segment).
- Paths are component lists:
  - `.` and `..` are ordinary names;
  - repeated and trailing `/` are dropped;
  - a path is not canonicalised.
- GitStatusSegment.ShortenHash: cuts at characters, where the source slices bytes. The two agree on the ASCII hashes git produces.
- OsSegment.DetectDistribution: reads the decoded head of the file as a string. The 400-byte read and the failure of `from_utf8` on a truncated character are not modelled.
- GhInfo.PullRequestOf: numbers are unbounded integers. The i32 range check on the pull request and merge request numbers belongs to JSON decoding, which is passed in. Only the comment count's `as i32` is modelled.
- The GitHub Actions information has no field in `src/info/gh.rs:6-9`, although the Actions segment reads it. The model passes it in as a separate parameter.
- The pull request segment's configuration file is not part of this model, so there is no default template. Its lemmas are stated for any configuration and for a `#`-layout.
- The GitLab icons for pipelines and approval are read by the segment but are missing from `src/config/glab_merge_request.rs`. The model gives them empty defaults; the default template does not use them.
- `print_segments` (`src/segment/mod.rs:111-141`) calls the presenter with a constructor of three arguments and with `display_line(left, right)`, `finish_left` and `display_right`, none of which `src/segment/presenter.rs` defines. It is modelled as the sequence of calls it makes. The presenter class models the methods `presenter.rs` does define. The terminal width is not modelled.
- `src/segment/path/mod.rs:33` calls `shrink_path` with three arguments where `shrink.rs` takes six. The model calls it with no home, no project root and no aliases, which gives the output its test expects.
- `src/config/mod.rs:114-123` lists six segment kinds while the dispatcher in `src/segment/mod.rs:86-101` matches twelve. The model follows the dispatcher.
- Text.ReplaceAll: the builders build their matchers with `AhoCorasick::new`, which uses the crate's standard match kind (a match is reported as soon as it ends), not leftmost-first. For the placeholder sets of the builders (each pattern is `{{.`, a name without braces, then `}}`, so no pattern is a substring of another and no proper suffix of one is a proper prefix of another; `PatternsArePlaceholders` in each builder module proves the part the model relies on: every pattern opens with `{` and none is a prefix of another) no pattern occurs inside or overlaps another, so both kinds find the same matches. The model states the leftmost-first rule (`Text.FirstMatch`) and does not model the standard match kind on other pattern sets. The crate itself is not part of this model.
- GitInfo.WorkingTreeStatusOf: the nine counters are unbounded. The source's `u32` counters (`src/info/git.rs:22-31`) and their `+= 1` overflow are not modelled.
- The upstream ahead/behind counts are unbounded. The truncating `ahead as u32` / `behind as u32` casts of `src/info/git.rs:182-183` are not modelled.
- Writes never fail in the model. The `io::Result` errors of the presenter are not modelled.

## Findings

| source | as written | input that shows it | evidently intended | confidence | as-written member | corrected member |
|---|---|---|---|---|---|---|
| src/config/style.rs:116-119 | After checking the length and the `#`, the six characters are parsed with `u32::from_str_radix(_, 16)`, which also accepts a leading `+` | `#+12345` parses as the colour (0x01, 0x23, 0x45) | only `#` followed by six hexadecimal digits is a colour | not executed | StyleModel.HexPlusSignAccepted | StyleModel.HexRoundTrip |
