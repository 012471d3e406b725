# semantic-release-hacs, modelled in Dafny

A model of a semantic-release plugin for Home Assistant custom components
(HACS). The plugin has three lifecycle hooks: `verifyConditions`,
`prepare` and `publish`. The hooks check that `hacs.json` and the Home
Assistant manifest exist, write the next version into the manifest, and
optionally zip the manifest's directory. The model also covers the helper
`detectJsonFormatting`. It finds the indentation of a JSON file so that
`prepare` can rewrite the file in the same style.

- `wrappers.dfy`: module `Wrappers`, the `Option` type.
- `formatting.dfy`: module `Formatting`, for `src/utils.ts`. The pattern
  `^{?([\t ]*)"` with the `m` flag is stated declaratively
  (`MatchesWith`, `IsFirstMatch`). It is computed by a left-to-right scan
  over positions (`MatchAt`, `FirstMatch`), and lemmas prove the two agree
  in both directions. The result is `Default` (JavaScript `undefined`),
  `Spaces(n)` or `Tab`.
- `release.dfy`: module `Release`, for `src/index.ts`. The file system is
  a map from resolved path to text, held by a `FileSystem` object that
  `Prepare` updates in place. `verifyConditions` only reads files, so it is
  a function of a snapshot of that map. `publish` also writes the archive;
  that write is left out, so `Publish` is a function of the snapshot too. `process.cwd()`,
  `path.resolve`, `path.join`, `path.dirname`, `JSON.parse` and
  `JSON.stringify` are fields of an `Env` value. Each thrown error is an
  `Error` variant.

Three behaviours of the code worth noting:

- `prepare` calls `JSON.parse` without a `try` (src/index.ts:57). An
  unparseable manifest therefore throws the raw `SyntaxError`, not the
  classified "could not parse" error that `verifyConditions` uses.
- `publish` tests whether the `zip_release` key is present, not whether it
  is true (src/index.ts:71). So `"zip_release": false` still builds the
  archive.
- `hacs.json` is resolved with `path.resolve`, but the directory to zip
  comes from `path.join(cwd, manifestPath)` (src/index.ts:86). The model
  keeps the two functions separate.

## Model

| member | source | states |
|---|---|---|
| Formatting.BlankRun | src/utils.ts:2 | `[\t ]*` is greedy: the run starting at a position is all blanks, stays inside the text, and stops at the end of the text or at a non-blank |
| Formatting.MatchAtExact | src/utils.ts:2 | the attempt at one position succeeds with group `g` exactly when the pattern matches there capturing `g`: a line start, at most one `{`, blanks, then `"` |
| Formatting.FirstMatch | src/utils.ts:2-3 | the scan returns a match at a position `>= from` with no match at any earlier position, or none when no position from `from` to the end matches |
| Formatting.FirstMatchFinds | src/utils.ts:2-3 | the leftmost match, at any line start, is the one the scan returns, with the same capture |
| Formatting.DetectJsonFormatting | src/utils.ts:1-14 | a numeric result is at least 1 and shorter than the text; `Spaces(n)` comes only from a first match whose group starts with a space and has length `n`; `Tab` only from one starting with a tab; `Default` only when nothing matches or the first group is empty |
| Formatting.DetectWithoutMatchIsDefault | src/utils.ts:2-7 | no line start followed by optional `{`, blanks and `"` gives `Default` |
| Formatting.DetectEmptyFirstRunIsDefault | src/utils.ts:2-7 | a first match with an empty group gives `Default`, whatever later lines hold |
| Formatting.DetectSpaceRunIsWidth | src/utils.ts:9-12 | a first group starting with a space gives its full length, tabs later in the run included |
| Formatting.DetectTabRunIsOneTab | src/utils.ts:11-13 | a first group starting with a tab gives one tab, whatever its length |
| Formatting.DoubleBraceNeverMatches | src/utils.ts:2 | at most one `{` is skipped: a line starting `{{` never matches there |
| Formatting.ExampleBraceOnOwnLine | src/utils.ts:2-12 | `{\n  "a": 1\n}` gives `Spaces(2)`: the first line fails because a line terminator follows `{` |
| Formatting.ExampleCompactFirstLine | src/utils.ts:2-7 | `{"a":1,\n  "b":2}` gives `Default`: the unindented first line decides |
| Formatting.ExampleTabsGiveOneTab | src/utils.ts:11-13 | two leading tabs give `Tab` |
| Formatting.ExampleMixedRunCountsAll | src/utils.ts:9-12 | a space followed by a tab gives `Spaces(2)` |
| Release.ReadJson | src/index.ts:69 | reading and parsing a file: a missing path is a read failure, an existing file whose text does not parse a syntax error, otherwise the parsed value |
| Release.CheckConfig | src/index.ts:11-13 | the configuration passes exactly when it is an object whose `manifestPath` is a non-empty string, and yields that string; otherwise "Invalid config" |
| Release.VerifyConditions | src/index.ts:15-51 | checks run in a fixed order (config, `hacs.json`, manifest present, manifest parses) and the first failure is reported; it passes exactly when all four hold; only the four classified errors occur; no file is changed |
| Release.InvalidConfigIgnoresFiles | src/index.ts:16-21 | an invalid configuration fails the same way whatever the files are |
| Release.SetVersion | src/index.ts:58 | setting `version` on an object sets it (adding it when missing) and keeps every other key and value; an array is left as serialisation sees it; null and primitives throw a type error |
| Release.PrepareRewrite | src/index.ts:53-62 | read and parse failures propagate unchanged; otherwise the content is the original with only `version` changed, and the indent is the one detected on the original text |
| Release.Prepare | src/index.ts:53-65 | on success exactly the manifest's path is overwritten with the serialised rewrite and every other file is unchanged; on failure no file changes |
| Release.PrepareRoundTrip | src/index.ts:57-62 | when parsing inverts serialisation, reading the written manifest back gives the original object with `version` set to the new version and nothing else changed |
| Release.VerifiedManifestPrepares | src/index.ts:15-62 | after a passing verification on the same files, `prepare` can fail only with a type error (a manifest that is not an object or array) |
| Release.Publish | src/index.ts:67-95 | read and parse errors of `hacs.json` propagate; it skips exactly when `zip_release` is absent; a missing `filename` is reported before a missing `name`; with all three keys present it builds the archive at `join(cwd, filename)` from `dirname(join(cwd, manifestPath))`, or throws a type error when `filename` is not a string |
| Release.AnyZipReleaseArchives | src/index.ts:71-91 | any `zip_release` value, `false` included, builds the archive once `filename` (a string) and `name` are present, because the gate tests key presence |

## Left out

- Reading and writing files, `fs.promises.exists` and the asynchronous
  scheduling: a map from path to text stands in for the file system. The map
  holds regular files only. So the case where a path exists but cannot be read
  (a directory, say), which `verifyConditions` also reports as unparseable, is
  not modelled.
- The path helpers and the working directory: they are uninterpreted fields of
  `Env`. No fact about absolute or relative paths is modelled.
- `JSON.parse` and `JSON.stringify`: `parse` is an arbitrary partial function
  and `stringify` an arbitrary function of value and indent. How `stringify`
  turns the indent into whitespace (up to 10 spaces, or the tab string) is not
  modelled. `Release.PrepareRoundTrip` assumes that parsing inverts
  serialisation.
- Key order in JSON objects: objects are maps. So the position of an added
  `version` key (appended by JavaScript) is not captured.
- JSON numbers are integers. Floating point is not modelled.
- The archive itself (`archiver`, `createWriteStream`, `pipe`, `finalize`):
  `Release.Publish` returns the target path and the source directory and writes
  nothing. Errors from the archive library or the output stream are not
  modelled.
- Zod's error text (`z.prettifyError`), the parse error's message carried by the
  "could not parse" error, and all logging: errors carry no detail text.
- `Release.Publish`: `in` on an array is modelled as false for the three keys
  it tests. None of them is an index, `length` or a prototype property.
- `SemanticReleaseError` and its codes: each error is a variant of `Error`.
