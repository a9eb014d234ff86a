# zxdev/env: a Dafny model of its configuration core

`env` is a small Go package that sets up a program's environment. Its main
job is to fill the fields of configuration structs from several sources:

- the `default` struct tag;
- a conf file of `key=value`, `key:value` or `key value` lines;
- the process environment;
- the command-line switches `-k v`, `-k=v` and `-k:v`;
- values given by position.

It can also mirror each final value back into the environment. Three
generations of this merge live side by side, each with its own precedence,
skip rules and panic behaviour:

- `init.go`: `Init`, `Parser` and `fieldParser`;
- `env.go`: `Configure` and `Options.parse`;
- `parser.go`: `Parser.Do`, whose map survives from one call to the next.

Around the merge the package has a few smaller pieces, and the model covers
them too:

- `dir.go`: the `Dir` path helpers;
- `persist.go`: a `.persist` file name and a map of time-stamped keys;
- `expire.go`: a file-expiry sweeper;
- `conf.go`: a defaults-then-JSON loader;
- `graceful.go`: the `Manager` that admits workers and counts them with two
  wait groups.

The model has one module per Go file: `InitGo`, `EnvGo`, `ParserGo`, `DirGo`,
`PersistGo`, `ExpireGo`, `ConfGo` and `GracefulGo`. Four modules hold what
those files share:

- `GoText`: stand-ins for the `strings` and `path/filepath` functions the code
  calls.
- `Fields`: reflected struct fields, the `setField` conversions and the runs
  of `setField` statements.
- `Scan`: the switch scanner, which all three files repeat verbatim, and the
  conf-line reader, which init.go and parser.go repeat.
- `Overload`: the field merge of `env.go` and `parser.go`. The two differ only
  in which fields they skip and in whether writing an unsettable field
  panics, so one definition takes a revision parameter.

Structs being configured are values: a merge returns the updated fields.
Objects whose fields the Go code changes in place are classes:

- the package settings of `init.go`;
- `Parser`, with its map;
- `Persist` and `Map`;
- `Expire`;
- the manager's registry of workers and wait-group counters.

Each loop of the source is a method proved equal to a specification
function. The promised properties are lemmas about those functions:

- precedence of the sources;
- last-write-wins;
- what is mirrored to the environment;
- round-trips of the conversions;
- frame conditions;
- the counters' invariant.

The outside world is passed in as parameters:

- `os.Args`;
- the environment, as a map, which `os.Setenv` changes only for a pair it
  accepts (a non-empty key without `=` or NUL, and a value without NUL),
  and in which `os.LookupEnv` finds only keys of that kind;
- the file system, as a map from path to lines, or a set of existing paths;
- `runtime.GOOS`;
- the clock, as integer nanoseconds.

How a run ends is a `Stop` value: `Running`, `Exit(code)` or `Panic`.

## Model

| member | source | states |
|---|---|---|
| `Fields.ParseInt` | init.go:548-551 | `strconv.ParseInt(s, 10, 0)` with its error ignored always yields a value inside the signed 64-bit range. |
| `Fields.ParseUint` | init.go:553-556 | `strconv.ParseUint(s, 10, 0)` with its error ignored always yields a value in `0 .. 2^64-1`. |
| `Fields.ScanUint` | init.go:554 | It accepts exactly the non-empty digit strings whose value fits in 64 bits, and then returns that value. |
| `Fields.ParseIntRoundTrip` | init.go:548-551 | Parsing the decimal rendering of any in-range signed integer gives the integer back. |
| `Fields.ParseUintRoundTrip` | init.go:553-556 | Parsing the decimal rendering of any in-range unsigned integer gives it back. |
| `Fields.Present` | init.go:498-510 | A `val, ok := m[k]` guard contributes at most one text: none exactly when `k` is absent, `m[k]` otherwise. |
| `Fields.StrictBoolWord` | init.go:539-546 | Ignoring case, the words on/yes/true/1 read as true and off/no/false/0 as false; nothing else is a boolean. |
| `Fields.SetField` | init.go:529-567 | Whatever the kind, the text returned is the input when the status is true and empty when it is false. |
| `Fields.SetFieldStatus` | init.go:533-556 | For string and integer kinds, the status is true exactly for a non-empty text. The value is the text itself, or the parsed signed or unsigned number. |
| `Fields.SetFieldBool` | init.go:538-546 | The strict bool setter of init.go succeeds exactly on a recognised word and then stores it; otherwise the field keeps its value. The lenient setter (env.go:371-381, and parser.go:199-209) always succeeds and stores whether the text is one of on/yes/ok/true/1. |
| `Fields.SetFieldUnsupported` | init.go:558-564 | A struct or other unsupported kind is left unchanged, with status false and an empty text, and is never written. |
| `Fields.ToLowerIdempotent` | init.go:539 | Lower-casing twice is lower-casing once. |
| `Fields.BoolWordsIgnoreCase` | init.go:539 | Both bool word tables give the same answer for a text and its lower-case form. |
| `Fields.SetFieldIdempotent` | init.go:529-567 | Applying the same text a second time changes nothing: same value, text and status. |
| `Fields.SetFieldBoolRoundTrip` | init.go:538-546 | Storing "true" or "false" into a bool field, with either setter, yields that boolean. |
| `Fields.SetFieldIntRoundTrip` | init.go:548-556 | Storing the decimal text of an in-range integer yields that integer with status true, for signed and (non-negative) unsigned kinds. |
| `Fields.ApplyAllSnoc` | init.go:496-511 | A run of `setField` statements extended by one text is the old run followed by one more statement. |
| `Fields.ApplyAllAppend` | init.go:496-511 | Running two groups of statements one after the other equals running them concatenated. |
| `Fields.ApplyAllPresent` | init.go:498-500 | A guarded lookup is one statement when the key is present and none otherwise. |
| `Fields.ApplyAllOne` | init.go:499 | A single text is a single `setField` statement. |
| `Fields.ApplyAllLastWins` | init.go:496-511 | On a settable field, a non-empty run never panics and ends with the conversion of the last text applied to the value left by the earlier ones. |
| `Fields.SetIfPresent` | init.go:498-500 | The guarded `if val, ok := m[k]; ok { setField }` statement is exactly one lookup's worth of the run, and a no-op when the key is absent. |
| `Fields.ApplyAllScalarLast` | init.go:496-511 | For string and integer kinds only the last text matters: value, text and status come from it alone. |
| `Fields.ApplyAllSettable` | init.go:529-556 | Writing to a settable field never panics. |
| `Fields.ApplyAllUnsettable` | parser.go:180-220 | On an unsettable field, a run panics exactly when some text would write it. Without a panic the value is unchanged. |
| `Fields.PanicSticks` | parser.go:180-220 | Once a panic has happened, later statements change nothing. |
| `Fields.StrictBoolLastWordWins` | init.go:538-546 | A strict bool field ends with the last recognised word of the run, or keeps its value when no word is recognised. |
| `Scan.TrimLeftKeeps` | init.go:334 | Trimming leading dashes never adds or removes a `=` or `:`. |
| `Scan.ParseSwitchSplits` | init.go:334-350 | A switch is joined exactly when it holds `=` or `:`. A joined switch splits at the first `=` if any, else at the first `:`, and key, separator and value rebuild the trimmed switch. A bare switch's key is the trimmed switch. |
| `Scan.ScanSwitches` | init.go:332-353 | The argument loop, with its look-ahead and step back, computes the switch map of the whole argument list. |
| `Scan.SwitchesUntouched` | init.go:332-353 | A key no switch names keeps its presence and its value. |
| `Scan.SwitchesKeepKeys` | init.go:332-353 | Switches never remove a key. |
| `Scan.SwitchesSkipPlain` | init.go:333 | An argument without a leading dash is skipped. |
| `Scan.BareSwitchSets` | init.go:342-350 | `-k v`, with `v` not a switch and no later switch naming `k`, leaves `k` set to `v`. |
| `Scan.BareSwitchBeforeDash` | init.go:345-349 | A bare switch followed by another switch sets nothing: the loop steps back. |
| `Scan.JoinedStep` | init.go:336-341 | One joined switch appends its value to its key, and the appended values add up. |
| `Scan.AppendAlgebra` | init.go:338 | `m[k] += v` on one key seen through a lookup of any key. |
| `Scan.SwitchesJoined` | init.go:336-341 | A joined switch is consumed alone, leaving the map with its value appended. |
| `Scan.JoinedValuesStep` | init.go:336-341 | The values a key collects from joined switches are the first switch's own value followed by the rest. |
| `Scan.SwitchesConcatenate` | init.go:336-341 | When every argument is a joined switch, each key ends as its old value with all its switch values appended in order (`+=`, not replace). |
| `Scan.TrimSpaceIdempotent` | init.go:376 | Trimming spaces twice is trimming once. |
| `Scan.TrimSpaceWithin` | init.go:376 | Trimming keeps only characters of the line. |
| `Scan.FirstSeparator` | init.go:380-386 | The separator loop stops at a separator the line contains, or runs past the end. |
| `Scan.FirstSeparatorSpec` | init.go:380-386 | It runs past the end exactly when the line holds none of `=`, `:` and space. It never skips a separator the line contains. |
| `Scan.ConfPairShape` | init.go:382-383 | Key and value are trimmed, the key does not contain the separator, and both come from the line. |
| `Scan.ConfLineShape` | init.go:376-386 | A line sets nothing exactly when it is blank, a `#`/`//` comment, or has no separator. Otherwise key and value are trimmed. `=` takes priority over `:`, and `:` over space. |
| `Scan.LoadConfLines` | init.go:375-387 | The scanner loop computes the conf map of the lines. |
| `Scan.ConfLinesAppend` | parser.go:41-61 | Reading two groups of lines one after the other equals reading them concatenated. |
| `Scan.ConfLinesKeepKeys` | init.go:375-387 | Conf lines never remove a key, and every key a line sets is present afterwards. |
| `Scan.ConfLinesUntouched` | init.go:375-387 | A key no line sets keeps its presence and its value. |
| `Scan.ConfFirstLineWins` | init.go:383 | A first line setting `k` to `v`, with no later line setting `k`, leaves `k` at `v`. |
| `Scan.ConfLastLineWins` | init.go:375-387 | The last line that sets a key decides its value (assignment, not append). |
| `InitGo.Settings.constructor` | init.go:40-50 | The package defaults: the identity is the base name of `os.Args[0]`, the paths are /etc, /srv and /var, and both toggles are off. |
| `InitGo.Settings.Development` | init.go:53 | Flips `development` and returns the new setting. |
| `InitGo.Settings.Env` | init.go:56 | Flips `env` and returns the new setting. |
| `InitGo.Settings.ApplyPlatform` | init.go:71-84 | A non-linux platform forces development. Development sets the identity, version and build to "development" and the paths under `_dev`. Otherwise nothing changes. |
| `InitGo.BannerWidth` | init.go:176-187 | The width is the largest of 18, the identity's length, and the version's and build's lengths plus 10, each length counted in UTF-8 bytes as Go's `len` counts them. |
| `InitGo.HelpTag` | init.go:214-229 | `helpTag` panics exactly on a value that is not a struct or on a struct with an unexported nested struct field. |
| `InitGo.Info` | init.go:169-213 | `version` or `help` (with any leading dashes) as the first argument ends the run, and nothing else does. It ends with exit 1 exactly when help meets a cfg element whose listing panics (`HelpPanics`), and otherwise with exit 0. |
| `InitGo.Args` | init.go:326-356 | A nil map is replaced by a new one, and the result is that map with the switches of `os.Args` applied. |
| `InitGo.ConfAsWritten` | init.go:361-390 | The result is the given map, or an empty one for nil, whatever the file holds. The file is closed before it is scanned. |
| `InitGo.ConfAsWrittenDropsLines` | init.go:367-375 | Even a file whose lines set a key gives an empty map, while reading the same lines would set that key. |
| `InitGo.Conf` | init.go:361-390 | Corrected reader: a missing file leaves the map as it is, and an existing file's lines are read into it. |
| `InitGo.TagParseSpec` | init.go:403-421 | Without a comma the tag comes back whole with no flags. With one, the tag is the part before the first comma. Each of require, order and environ is set exactly when the modifier text contains that word, and no other bit is set. |
| `InitGo.Step` | init.go:460-524 | One field's turn keeps the number of fields and changes no field but its own. A skipped field is not changed at all. |
| `InitGo.Walk` | init.go:460-524 | The field loop keeps the number of fields and never changes a skipped field (exported nested struct, `-` or empty tag). |
| `InitGo.WalkUnfold` | init.go:460-524 | A running loop is one turn followed by the rest. An exit in that turn ends the loop at once. |
| `InitGo.SourcesPrecedence` | init.go:480-511 | A field tagged `order`, while positional arguments remain, reads only its default and the next positional argument. Otherwise the precedence is `os.Args` switch over environment (upper-case key, found only when the environment can hold it: non-empty, no `=`, no NUL) over conf over default. The field gets no text exactly when all four are absent. |
| `InitGo.StepScalarField` | init.go:476-517 | A settable string or integer field ends with the conversion of its winning text, or keeps its value when there is none. The run exits 0 exactly when the field is required and that text is missing or empty. |
| `InitGo.StepNoMirror` | init.go:519-522 | Without the env toggle and without `,environ`, a field's turn leaves the environment alone. |
| `InitGo.StepMirror` | init.go:519-522 | With the env toggle, a turn that carries on changes the environment at most at the tag's key, and only with a pair `os.Setenv` accepts (non-empty key without `=` or NUL, value without NUL). An empty tag writes nothing. An optional field with no source mirrors the empty string when `os.Setenv` accepts the key. |
| `InitGo.StepMirrorWrites` | init.go:519-522 | With the env toggle, a turn that carries on and whose tag and text `os.Setenv` accepts writes exactly that text under the tag. |
| `InitGo.StepOrderBranch` | init.go:488-494 | A positional field ignores the conf, switch and environment maps. It consumes the next argument unless that argument is a switch. |
| `InitGo.StepNestedStruct` | init.go:462-465 | An exported nested struct is passed over. An unexported one stops the loop with exit 1 (its `Interface()` panics and the recovery exits), changing nothing else. |
| `InitGo.StepFrame` | init.go:460-524 | A turn changes no other field, and changes a skipped field not at all. |
| `InitGo.SetFromSources` | init.go:479-512 | The branch of `setField` calls is the run over the field's sources, starting from an unset status. The position advances exactly when an argument is consumed. |
| `InitGo.ParseField` | init.go:462-522 | One iteration of the field loop computes one turn. A recovered panic becomes exit 1, including the `Interface()` panic on an unexported nested struct. |
| `InitGo.FieldParser` | init.go:449-526 | The loop over the fields computes the whole walk of the element. A value that is not a struct exits 1, and so does reaching an unexported nested struct. |
| `InitGo.Parser` | init.go:432-446 | A nil args map is replaced by the `os.Args` switches. A nil conf map is replaced by what `Conf` returns for `<EtcPath>/<identity>/<identity>.conf`, which as written is always empty. Each element is parsed in turn, and the first exit ends the run (exit 1 on an unexported nested struct, as `fieldParser` gives). |
| `InitGo.Init` | init.go:69-89 | The platform decides development mode; in development mode the identity, version and build become `development` and the paths the `_dev/` ones, otherwise they are kept, and the `env` toggle is never changed. `version`/`help` end the run with exit 0, or exit 1 when help's listing panics, before any field is touched. Otherwise the fields are filled from the switches and an empty conf map (the as-written `Conf`) with the `env` toggle the caller set. |
| `Overload.TagWordsSnoc` | env.go:290-303 | Decoding one more comma-separated word applies that word to the tag decoded so far. |
| `Overload.TagWordsFlags` | env.go:290-303 | order, require and environ are set exactly when that word occurs among the tag's words. |
| `Overload.TagWordsAlias` | env.go:299-300 | The alias is the last word that is not a flag word. |
| `Overload.DecodeTag` | env.go:286-304 | The loop over the tag's words computes the decoded tag. |
| `Overload.Step` | env.go:270-343 | A field's turn keeps the number of fields and changes no other field. A skipped field is not changed. |
| `Overload.Walk` | env.go:270-343 | The field loop keeps the number of fields and never changes a skipped field: in env.go one that cannot be set, has an empty name or an `env:"-"` tag; in parser.go only an empty name. |
| `Overload.WalkUnfold` | env.go:270-343 | A running loop is one turn followed by the rest. An exit ends it at once. |
| `Overload.SetFromSources` | env.go:306-330 | The chain of guarded `setField` calls is the run over the field's sources, starting from an unset status. The position advances exactly when a positional argument is consumed. |
| `Overload.SetNext` | env.go:312-322 | One more guarded lookup extends the run by that key's text. |
| `Overload.MergeField` | env.go:272-342 | One iteration of the field loop computes one turn (parser.go:101-170 likewise). |
| `Overload.MergeItem` | env.go:262-344 | The loop over one element's fields computes its walk. A non-struct element exits 1 when it is a pointer or an array, chan, map or slice, whose `Elem()` succeeds. Any other non-struct panics in `Elem()`. |
| `Overload.MergeItems` | env.go:258-346 | The loop over the cfg elements computes the run over all of them. Each element restarts its position count at 1, and the environment carries over between elements. |
| `Overload.SourcesPrecedence` | env.go:306-330 | The precedence is positional argument over environment (upper-case name, found only when the environment can hold that key) over alias key over name key over default. The field gets no text exactly when all are absent. With an empty alias, a switch with an empty key is also read. |
| `Overload.TurnScalarField` | env.go:306-337 | A settable string or integer field ends with the conversion of its winning text. The run exits 0 exactly when the field is required and that text is missing or empty. |
| `Overload.TurnBoolField` | env.go:371-381 | A bool field with any source always gets a status and takes the on/yes/ok/true/1 reading of the last text. Without sources it is unchanged and exits 0 exactly when required. |
| `Overload.TurnMirrorOnly` | env.go:339-342 | The environment changes only under `SetENV` or `,environ`, only at the lower-case field name, only with a pair `os.Setenv` accepts, and never for a field with no source. |
| `Overload.TurnMirror` | env.go:339-342 | A settable scalar field whose last text is non-empty mirrors that text under its name when mirroring is on and `os.Setenv` accepts the pair. Otherwise the environment is unchanged. |
| `Overload.EnvStepNeverPanics` | env.go:274-276 | `parse` skips unsettable fields, so a field's turn never panics. |
| `Overload.ParserStepUnsettable` | parser.go:180-220 | parser.go does not skip unexported fields. A turn on one panics exactly when some source text would be written, and leaves the field unchanged. |
| `Overload.StepFrame` | parser.go:101-170 | A turn changes no other field, and changes a skipped field not at all. |
| `ParserGo.ConfFilesAsLines` | parser.go:40-62 | Reading the conf files one by one is reading all their lines run together, in directory order. |
| `ParserGo.DoTwiceAppendsTwice` | parser.go:33-87 | Because `p.m` persists, a key set only by `-k=v`/`-k:v` switches gets those values appended once more by every `Do`. |
| `ParserGo.ConfThenBareSwitch` | parser.go:40-87 | A bare `-k v` right after the program name, with no later switch naming `k`, overrides the conf value of `k`. |
| `ParserGo.ConfThenSwitches` | parser.go:64-87 | Joined switches append to what the conf files left. |
| `ParserGo.LoadConfFiles` | parser.go:40-62 | The directory loop computes the conf files read in turn; a file that cannot be opened is skipped. |
| `ParserGo.Parser.constructor` | parser.go:13-17 | A `Parser` literal: the given fields and a nil map. |
| `ParserGo.Parser.Do` | parser.go:28-175 | The map is created only when nil, then gets the conf files and the switches, and is kept for the next call. The cfg elements are merged from it under `SetENV`. |
| `EnvGo.AsItem` | env.go:56-64 | An `Options` that is not first is an ordinary struct of three exported bool fields holding its values. A nil `*Options` there is the invalid value `reflect.Indirect` gives: neither a struct nor a pointer, with no fields. |
| `EnvGo.ExtractOptions` | env.go:56-64 | An `Options` value or pointer as the first element is taken as the options and dropped. A nil `*Options` there gives nothing, because dereferencing it panics. Otherwise the options are all false and every element is kept. |
| `EnvGo.SelectPaths` | env.go:67-82 | On linux the paths are /etc, /srv, /var and /tmp. Elsewhere they are the `_dev/` ones and the name is `development`. The name is never empty and holds no slash. |
| `EnvGo.HelpListing` | env.go:104-168 | The listing panics exactly when help is not suppressed and some element is not a struct, or lists a field while the element's index is beyond its own field count (the tags are read from field `i`). |
| `EnvGo.Parse` | env.go:225-347 | The switches of `os.Args` start from an empty map, then every element is merged under `SetENV`. |
| `EnvGo.Configure` | env.go:52-214 | An empty cfg panics, and so does a nil `*Options` as the first element, before the paths are set. `version` exits 0, and `help` exits 0 unless the listing panics; both happen before any field is set. Otherwise the parse result stands, and an unsilenced banner that does not fit panics: a program name over 27 bytes, or a version or build over 31 bytes, counted in UTF-8 as Go's `len` does. |
| `DirGo.Join` | dir.go:35 | The joined path is empty exactly when the base and every element are empty. |
| `DirGo.JoinAppend` | dir.go:35 | Joining more elements is joining the first path with the rest. |
| `DirGo.CreatePath` | dir.go:61-71 | When the last element names a file (contains `.`, `_` or `-`) the path is the directory joined with that file; otherwise it is the directory itself. |
| `DirGo.Create` | dir.go:46-73 | Returns the same path as `Join`. The directory is created exactly when it does not yet exist. |
| `PersistGo.WithExt` | persist.go:38-45 | The name always ends with `.persist`; the suffix is added only when missing. |
| `PersistGo.WithExtIdempotent` | persist.go:38-45 | Settling the name twice is settling it once. |
| `PersistGo.Persist.constructor` | persist.go:35 | A `Persist` holds the given name. |
| `PersistGo.Persist.Filename` | persist.go:38-45 | The receiver's name is replaced by its settled form, which is returned. |
| `PersistGo.StampMap.constructor` | persist.go:85-88 | `NewMap` is empty. |
| `PersistGo.StampMap.Add` | persist.go:91-95 | A non-empty key is stamped with the current time, replacing an older stamp. An empty key is ignored. |
| `PersistGo.StampMap.Next` | persist.go:99-104 | `Next` returns a function exactly when the map is non-empty. |
| `PersistGo.StampMap.Take` | persist.go:105-115 | One call removes keys and never adds any. Every key it drops besides the one returned had expired. A returned key was not expired and is gone. With nothing returned, the map is empty. |
| `PersistGo.StampMap.Drain` | persist.go:99-116 | Calling the function until it reports no more empties the map. It returns each unexpired key exactly once and no expired key. |
| `ExpireGo.TruncateSecond` | expire.go:79 | `now` truncated to the second is at most `now`, within one second of it, and a whole second. |
| `ExpireGo.DirRemovals` | expire.go:82-88 | A directory's removals are exactly the joined paths of its entries older than the age. |
| `ExpireGo.RemovalsExactly` | expire.go:77-93 | A path is removed exactly when it is an expired entry of one of the registered directories under that directory's age. |
| `ExpireGo.ExpiredLater` | expire.go:83 | A file expired now is expired at any later time. |
| `ExpireGo.DirRemovalsGrow` | expire.go:82-88 | A later sweep removes at least what an earlier one would. |
| `ExpireGo.SweepDir` | expire.go:81-89 | The inner loop computes the directory's removals. |
| `ExpireGo.Expire.constructor` | expire.go:27 | `new(Expire)`: no paths, checks unset, reporting off. |
| `ExpireGo.Expire.Report` | expire.go:58 | Toggles reporting. |
| `ExpireGo.Expire.Add` | expire.go:61-74 | An empty path is ignored. Otherwise the path is appended with its age, where age 0 means a day, and the paths and ages stay paired. |
| `ExpireGo.Expire.Sweep` | expire.go:77-93 | The nested loops remove exactly the removals of all registered directories. |
| `ExpireGo.Expire.Start` | expire.go:37-42 | An unset check interval becomes an hour, and the first sweep runs at once. |
| `ExpireGo.NonEmpty` | expire.go:28-30 | The paths kept are exactly the non-empty ones. |
| `ExpireGo.ExpireAdmitted` | expire.go:31 | An `*Expire` is admitted as a `Start(ctx)` struct named `expire`. |
| `ExpireGo.AddAll` | expire.go:27-30 | Every non-empty path is registered at the default age of a day, in order. |
| `ExpireGo.NewExpire` | expire.go:25-33 | The new `Expire` is placed under management as one more launched unit. |
| `ConfGo.DefaultWrite` | conf.go:34-50 | Only fields with a `default` tag are written. A string gets the tag text, an int its parse, and a bool only `true` for on/yes/ok/true/1. No other kind is written. |
| `ConfGo.Defaulted` | conf.go:35-49 | Applying the default changes at most the field's value. |
| `ConfGo.Defaults` | conf.go:32-52 | Only a struct's fields are defaulted, each by its own tag, and the shape is kept. |
| `ConfGo.DefaultsFrame` | conf.go:35 | A field with nothing to write is left as it is. |
| `ConfGo.DefaultsIdempotent` | conf.go:32-52 | Applying the defaults twice is applying them once. |
| `ConfGo.IntDefaultRoundTrip` | conf.go:39-41 | An int field whose default is the decimal text of `n` gets `n`. |
| `ConfGo.FalseDefaultKeepsBool` | conf.go:42-48 | A default of off/no/false/0 leaves a bool field as it is: the false case is commented out. |
| `ConfGo.Conf` | conf.go:22-63 | It panics exactly when the default pass must write into a field it cannot set (a struct passed by value, or an unexported field). Otherwise every default is applied, and the JSON file is decoded exactly when the path is non-empty and opens. |
| `GracefulGo.ToLowerIsLower` | graceful.go:150 | Lower-cased names are lower case. |
| `GracefulGo.Segment` | graceful.go:144-149 | The segment chosen from a symbol never contains a dot. |
| `GracefulGo.WorkerName` | graceful.go:143-150 | A function worker's name is lower case and has no dot. |
| `GracefulGo.SplitThree` | graceful.go:145 | Splitting `x.y.z`, where no part holds a dot, at dots yields the three parts. |
| `GracefulGo.StarInside` | graceful.go:144 | A `*` in the receiver is seen in the whole symbol. |
| `GracefulGo.SegmentOfFunction` | graceful.go:147-148 | A plain function symbol `pkg.rest` gives its package. |
| `GracefulGo.SegmentOfMethodValue` | graceful.go:144-146 | A method value symbol `pkg.(*T).m-fm` gives `m`. |
| `GracefulGo.FunctionNamedByPackage` | graceful.go:141-150 | `dir/server.Start.func3` names the worker `server`. |
| `GracefulGo.MethodValueNamedByMethod` | graceful.go:141-150 | `dir/pkg.(*T).Basic-fm` names the worker `basic`. |
| `GracefulGo.Admit` | graceful.go:84-183 | Nil panics. Unsupported types, structs without `Start` and functions of another type exit 0. Structs launch as the richest interface they satisfy, named by `Name()` when present, else by their type, in lower case. Functions launch under their symbol's name. |
| `GracefulGo.CountPhaseZero` | graceful.go:81-82 | No unit is in a phase exactly when that phase's count is zero. |
| `GracefulGo.CountPhaseUpdate` | graceful.go:96-98 | Moving one unit to another phase changes the two counts by one each. |
| `GracefulGo.CountPhaseSnoc` | graceful.go:81-82 | Adding a unit adds one to its phase's count. |
| `GracefulGo.Registry.constructor` | graceful.go:219 | The registry starts with no units, counters at zero, and shutdown not armed. |
| `GracefulGo.Registry.Counters` | graceful.go:81-82 | The invariant: `wgManager` counts launched units and `wgShutdown` counts the units not yet finished. So `wgManager` is zero exactly when every unit has started, and `wgShutdown` is zero exactly when every unit has finished. |
| `GracefulGo.Registry.Manager` | graceful.go:79-185 | Both counters go up by one. An admitted value becomes a launched unit. A refused one halts with exit 0, and a nil one with a panic, while the counters keep their raised values. |
| `GracefulGo.Registry.Enlist` | graceful.go:81-99 | Launching a unit appends it and raises both counters, keeping the invariant. |
| `GracefulGo.Registry.Halt` | graceful.go:134-136 | An exit after `Add(1)` leaves both counters raised with no unit behind them. |
| `GracefulGo.Registry.Begin` | graceful.go:96 | A goroutine reaching `wgManager.Done()` moves its unit to started and lowers `wgManager`. |
| `GracefulGo.Registry.Finish` | graceful.go:98 | A worker returning lowers `wgShutdown` and marks its unit finished. |
| `GracefulGo.Registry.Shutdown` | graceful.go:223-233 | The flag is armed, and the call reports whether it was the first. |

## Left out

- Goroutines, channels and `context` are not modelled. `Ready`, `Stop`, the
  signal loop of `Shutdown` (graceful.go:187-258) and shutdown.go are left
  out. `Manager` is a step of the registry; `Begin` and `Finish` are the
  goroutine's two `Done` calls.
- `Fork` (init.go:94-164), fork.go and lock.go are not part of this model.
  They manage pid files and daemon processes.
- `NewEnv` (env.go:30) is not part of this model. It only calls
  `Configure`.
- `Persist.Load` and `Persist.Save` (persist.go:49-79) are left out. They
  are gob encoding and file I/O.
- The JSON decode of `conf.go` (conf.go:55-61) is left out. Only whether it
  happens is modelled.
- The text of the help, version, summary and log output (init.go `helpTag`,
  `envTag`, `Summary`, the `Configure` banner and listing in env.go) is
  left out. Only the exits and panics those paths cause are kept.
- `init.go`'s `fieldParser` and `helpTag` recurse into exported nested
  structs on a copy that cannot be set. Those fields are skipped, and the
  recursive call's own exits are not modelled. An unexported nested struct
  is modelled: its `Interface()` panics and the recovery exits 1.
- Case mapping covers ASCII only.
- `filepath.Join` is modelled without `Clean`: empty elements are dropped
  and the rest joined with `/`, with no `..` or double-slash cleaning.
- `filepath.Base` is modelled without `Clean`.
- The scanner's 64 KiB line limit is not modelled.
- The clock is a parameter, in nanoseconds.
- `PersistGo.StampMap.Take` reads the clock once per call. The Go closure
  re-reads `time.Now()` for every key.
- `PersistGo.StampMap.Take` picks an arbitrary key with `:|`, standing for
  Go's unspecified map order. The ensures says which keys may be returned,
  not which one is.
- `ParserGo.Parser.Do` reads the cfg elements as values: pointer aliasing
  between elements and with the caller's struct is not captured. The same
  holds for `EnvGo.Configure` and `InitGo.Parser`.
- Map and slice fields, which the reflected code ignores, are a single
  unsupported kind.
- `ConfGo.Conf` does not model a nil `cfg`, on which `reflect` panics.
- `ExpireGo.Expire.Sweep` returns the paths it would remove. A failing
  `os.Remove` and subdirectory entries are not distinguished.
- The log lines of `Expire.Add` and of reporting are left out.
- `ExpireGo.Expire.Start`: only the first sweep is modelled. The ticker
  loop is concurrency and is left out.
- `EnvGo.Configure`: `BannerWidth` is computed as in the source, but its
  result only feeds output text, so it is not part of the ensures.

## Findings

| source | as written | input that shows it | evidently intended | confidence | as-written member | corrected member |
|---|---|---|---|---|---|---|
| init.go:367-375 | `Conf` closes the file right after opening it and then scans the closed file, so no line is ever read and the map comes back as it went in | a conf file holding the single line `a=1` gives an empty map | the scanner reads every line into the map, as parser.go:43-59 does | not executed | `InitGo.ConfAsWritten` (with `InitGo.ConfAsWrittenDropsLines`); `InitGo.Parser` and `InitGo.Init` call it, as init.go:438-440 does | `InitGo.Conf` |
