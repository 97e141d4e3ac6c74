# cabbage-cms content resolution, in Dafny

This project models the content-resolution engine of cabbage-cms: the git
content loader under `libs/api/src/lib/content-loader/` and the page API in
`libs/api/src/lib/api.ts`. It also proves properties of that model.

- **Model matcher** (`matcher.dfy`, module `Matcher`) decides which schema
  model describes a content file. Models are split into three tiers:
  - models with a `file` attribute;
  - models carrying the query's discriminator;
  - the rest, matched by folder and glob.

  The first tier with a match wins. `getModelByQuery` turns the outcome into a
  model or a not-matched or several-models error.
- **Annotator** (`annotator.dfy`) is the schema-driven walk of `addMetadata`
  and `addMetadataByField`. It stamps `__metadata` on every object it reaches
  and collects schema-position and data-position errors. The data and page
  normalisers live here too.
- **Loader** (`loader.dfy`) is `loadContent` with its steps: config file, data
  directory, pages directory, the page exclusion list and `isSubFolder`. Each
  file is parsed, matched, normalised and annotated. One bad file becomes an
  error entry and the loop goes on.
- **Walker** (`walker.dfy`) covers `readDirRec` over an in-memory directory
  tree and the loader's filtered, sorted `readDir`. The tree records the
  entries whose `stat` rejects and the directories whose `readdir` rejects,
  so a listing rejects where the source's does.
- **Codec** (`codec.dfy`) covers:
  - front matter detection in `parseMarkdownWithFrontMatter`, with its four
    conventions (YAML `---`, TOML `+++`, `---json`, bare `{`);
  - the extension dispatch of `parseDataByFilePath` and
    `stringifyDataByFilePath`.
- **Reducer** (`reducer.dfy`) is `dataReducerSync`, the fold that gathers
  results and error lists.
- **Paths** (`paths.dfy`) covers `path.extname`, `path.join` for relative
  paths, `convertToPosixFilePath`, `fieldPathToString` and `fromPath`.
- **ContentErrors** (`errors.dfy`) holds the error classes as one datatype,
  with their messages and `name`.
- **Api** (`api.dfy`) covers:
  - `fileToUrl`;
  - `readContent` with its `__metadata`;
  - the URL-to-file map behind `urlToContent`;
  - the type filter and grouping of `pagesBySlug`;
  - `siteConfig`.
- **Supporting modules:** `Values` is the JSON-like value datatype with
  ordered objects, lodash's `compact` and `omit`, and JavaScript truthiness.
  `Schema` is the model and field datatype. `Strings` holds the JavaScript
  and lodash string functions. `Wrappers` holds `Option` and `Result`.

The foreign pieces are function-valued parameters:
- **Glob matching** (micromatch) is `(path, pattern) -> Result<bool, string>`.
  A `Failure` is a pattern the library rejects by throwing.
- **Codecs:** the YAML, TOML and JSON codecs are the `Codecs` record;
  gray-matter and `JSON.parse` are in the `Workspace` record.
- **File system:** directory listing, existence and file reading are the
  `Io` and `Workspace` records.
- **Platform:** the platform separator is a parameter of `convertToPosixFilePath`. `path.join` and `path.relative` are modelled with `/`.

Whenever the source can throw, the model returns `Result` and carries the
message.

## Model

Source paths are relative to the repository root.

| member | source | states |
|---|---|---|
| Matcher.IsMatchAny | libs/api/src/lib/content-loader/model-matcher.ts:135-136 | A pattern list matches without throwing exactly when every pattern compiles. It yields true exactly when, in addition, some pattern matches the path. |
| Matcher.Alternatives | libs/api/src/lib/content-loader/model-matcher.ts:151 | Trimming braces, splitting on `,` and compacting leaves only non-empty, comma-free alternatives. |
| Matcher.GlobToArray | libs/api/src/lib/content-loader/model-matcher.ts:146-155 | Every alternative a glob attribute expands to is non-empty and comma-free. |
| Matcher.AlternativesRoundTrip | libs/api/src/lib/content-loader/model-matcher.ts:146-155 | Take non-empty parts free of commas and braces. Comma-joined, with or without surrounding braces, they expand back into exactly those parts. |
| Matcher.SimplePattern | libs/api/src/lib/content-loader/model-matcher.ts:146-155 | A pattern with no comma and no brace at either end is its own only alternative. |
| Matcher.JoinPathAndGlob | libs/api/src/lib/content-loader/model-matcher.ts:141-144 | There is one pattern per alternative. An empty folder leaves the alternatives alone; any other folder prefixes each with `folder/`. |
| Matcher.Partition | libs/api/src/lib/content-loader/model-matcher.ts:78-102 | The three group sizes add up to the number of models, so the reduce drops none. |
| Matcher.PartitionIsFilter | libs/api/src/lib/content-loader/model-matcher.ts:88-94 | Each group is exactly the in-order filter of the models by its test. A model with `file` is in the file group, whatever else it declares. A model is in the discriminator group only when the query type is truthy and the model has the key. Every other model is in the glob group. |
| Matcher.FilterModels | libs/api/src/lib/content-loader/model-matcher.ts:104 | `_.filter`: a model is kept iff it is in the input and passes the test; the result is no longer than the input. |
| Matcher.FilterModelsAppend | libs/api/src/lib/content-loader/model-matcher.ts:104 | Filtering a concatenation is the concatenation of the filtered halves, so kept models stay in input order and keep their multiplicity. |
| Matcher.FileTier | libs/api/src/lib/content-loader/model-matcher.ts:104-113 | A file-group model is kept iff its `file` is a string the path matches. A non-string `file` or a throwing pattern counts as no match, not as an error. |
| Matcher.TypeTier | libs/api/src/lib/content-loader/model-matcher.ts:119-122 | A discriminator model is kept iff its value at the key path is strictly equal to the query type. |
| Matcher.GlobMatches | libs/api/src/lib/content-loader/model-matcher.ts:128-138 | A glob model matches iff some `match` alternative matches and, when there are exclude alternatives, none of them matches. |
| Matcher.FilterOrThrow | libs/api/src/lib/content-loader/model-matcher.ts:128-138 | A filter whose test may throw succeeds iff no test throws. It then keeps exactly the elements whose test is true, and no more elements than the input has. |
| Matcher.FilterOrThrowAppend | libs/api/src/lib/content-loader/model-matcher.ts:128-138 | A successful filter of a concatenation succeeds on both halves and is their filtered results concatenated: input order and multiplicity are kept. |
| Matcher.GlobTier | libs/api/src/lib/content-loader/model-matcher.ts:128-138 | The glob tier succeeds iff no glob-group model's patterns throw. It then keeps exactly the matching glob-group models. |
| Matcher.GetModelsByQuery | libs/api/src/lib/content-loader/model-matcher.ts:73-139 | Every model returned is one of the given models. |
| Matcher.FileTierWins | libs/api/src/lib/content-loader/model-matcher.ts:115-117 | If any file-tier model matches, the result holds it and only file-tier matches. Later tiers are not consulted, so a malformed glob elsewhere cannot throw. |
| Matcher.TypeTierNext | libs/api/src/lib/content-loader/model-matcher.ts:119-126 | With no file-tier match, a discriminator match decides. The result then holds only matching discriminator models. |
| Matcher.GlobTierLast | libs/api/src/lib/content-loader/model-matcher.ts:128-138 | With neither earlier tier matching, the result is the glob tier over the glob group. Every model returned is a glob-group model, so a discriminator model that failed to match is never reconsidered. |
| Matcher.DefaultPatterns | libs/api/src/lib/content-loader/model-matcher.ts:129-133 | With no `folder`, `match` or `exclude`, the patterns are `['**/*']` and no excludes. |
| Matcher.GlobDefaults | libs/api/src/lib/content-loader/model-matcher.ts:129-137 | Such a model matches exactly the paths `**/*` matches. |
| Matcher.NoExcludes | libs/api/src/lib/content-loader/model-matcher.ts:134-137 | Without exclude patterns, the glob test is the match test alone. |
| Matcher.ModelNames | libs/api/src/lib/content-loader/model-matcher.ts:45 | The names of the matched models, one per model and in model order. |
| Matcher.GetModelByQuery | libs/api/src/lib/content-loader/model-matcher.ts:32-50 | The call fails only when the matcher throws. Otherwise exactly one of model and error is set, and the model is one of the given ones. Any error is a not-matched or several-models error carrying the query's path. |
| Matcher.ResultRule | libs/api/src/lib/content-loader/model-matcher.ts:36-49 | 0 matches iff the not-matched error. More than 1 iff the several-models error naming the matches in order. Exactly 1 iff that model is returned. |
| ContentErrors.NotMatchedMessage | libs/api/src/lib/content-loader/content-errors.ts:10-16 | The message starts with `file '<path>'` and ends with ` does not match any model`. |
| ContentErrors.NotMatchedMessageInjective | libs/api/src/lib/content-loader/content-errors.ts:13 | Two paths with the same not-matched message are the same path. |
| ContentErrors.MultipleModelsMessageNamesAll | libs/api/src/lib/content-loader/content-errors.ts:18-26 | The several-models message contains every model name. |
| ContentErrors.ReadErrorMessages | libs/api/src/lib/content-loader/content-errors.ts:28-46 | File and folder read messages start by naming the path. They end with the inner error's message, after `:  ` for a file and `: ` for a folder. |
| ContentErrors.ModelNotFoundMessageEmbedsPath | libs/api/src/lib/content-loader/content-errors.ts:56-64 | The model-not-found message contains the field path joined with `.`. |
| ContentErrors.IllegalModelFieldMessageEmbedsPath | libs/api/src/lib/content-loader/content-errors.ts:66-80 | The illegal-model-field message contains the field path joined with `.`. |
| ContentErrors.Message | libs/api/src/lib/content-loader/content-errors.ts:3-113 | The validation and custom errors report their given message verbatim. |
| ContentErrors.Name | libs/api/src/lib/content-loader/content-errors.ts:82-113 | The name is `ContentValidationError` iff the error is a content validation error. |
| Reducer.Entries | libs/api/src/lib/content-loader/utils.ts:861 | `_.reduce` visits array items with their index and object properties with their key. It visits a string's characters with their index and nothing else. |
| Reducer.DataReducerSync | libs/api/src/lib/content-loader/utils.ts:839-862 | An array input gives an array result; any other input gives an object. |
| Reducer.PresentData | libs/api/src/lib/content-loader/utils.ts:846-848 | The `data` of the callback results that carry one, never more than there are results. |
| Reducer.ReduceArrayData | libs/api/src/lib/content-loader/utils.ts:846-848 | The array accumulator, for any callback, is the present callback data in entry order, each spliced one level; results without `data` are dropped. |
| Reducer.DataReducerArray | libs/api/src/lib/content-loader/utils.ts:839-862 | On an array and any callback, the data is the flattened present callback results and the errors are the callback errors, both in item order. |
| Reducer.DataReducerErrors | libs/api/src/lib/content-loader/utils.ts:855-857 | The errors are the callback's errors, concatenated in entry order. |
| Reducer.DataReducerClean | libs/api/src/lib/content-loader/utils.ts:855-857 | A callback that reports no error for any entry leaves the reducer with no errors. |
| Reducer.ReduceArrayErrors | libs/api/src/lib/content-loader/utils.ts:855-857 | The array accumulator's errors are the callback's errors, in order. |
| Reducer.ReduceObjectErrors | libs/api/src/lib/content-loader/utils.ts:855-857 | The object accumulator's errors are the callback's errors, in order. |
| Reducer.ReduceObjectKeyData | libs/api/src/lib/content-loader/utils.ts:847-854 | The object result under a key is the `data` of the last entry with that key that returned some. Entries without `data` are dropped. |
| Reducer.KeyDataUnique | libs/api/src/lib/content-loader/utils.ts:847 | With distinct keys, the one entry carrying a key alone decides the value under it. |
| Reducer.ReduceObjectLookup | libs/api/src/lib/content-loader/utils.ts:847-854 | With distinct keys, each key holds its own entry's callback `data`, and absent keys stay absent. |
| Reducer.ObjectReducerLookup | libs/api/src/lib/content-loader/utils.ts:847-854 | On an object with distinct keys, the result under each key is the callback's `data` for that property. |
| Reducer.ReduceSingleObject | libs/api/src/lib/content-loader/utils.ts:839-862 | Reducing a one-property object gives that property's callback result under its key. |
| Reducer.ReduceArrayIdentity | libs/api/src/lib/content-loader/utils.ts:846 | A callback returning each item unchanged concatenates the items, splicing array items one level. |
| Reducer.ArrayReducerFlattens | libs/api/src/lib/content-loader/utils.ts:846 | For an array, the identity callback's result is the array flattened one level, with no errors. |
| Reducer.Flatten1Flat | libs/api/src/lib/content-loader/utils.ts:846 | Flattening leaves an array of non-arrays unchanged. |
| Paths.Basename | libs/api/src/lib/content-loader/content-loader.ts:126 | The base name has no `/`, ends the path, and follows the last `/`. |
| Paths.Extension | libs/api/src/lib/content-loader/content-loader.ts:126 | The extension never contains `.` or `/`. |
| Paths.ExtensionOf | libs/api/src/lib/content-loader/content-loader.ts:125-127 | The extension of `dir/name.ext` and of `name.ext` is `ext`. |
| Paths.ConvertToPosixFilePath | libs/api/src/lib/content-loader/utils.ts:929-941 | On POSIX, or for an empty path, the path is unchanged. Otherwise the result contains no platform separator. |
| Paths.PosixConversionReplaces | libs/api/src/lib/content-loader/utils.ts:937-940 | Without a drive prefix, the conversion replaces each separator by `/` and changes nothing else. |
| Paths.Segments | libs/api/src/lib/content-loader/content-loader.ts:71-72 | `path.join` segments are non-empty, not `.`, and slash-free. |
| Paths.PathJoin | libs/api/src/lib/content-loader/content-loader.ts:71-72 | `path.join` never returns the empty string. Its segments are those of the first path followed by those of the second; with no segments at all it is `.`. |
| Paths.SegmentsOfJoin | libs/api/src/lib/content-loader/content-loader.ts:71-72 | Joining proper segments with `/` and splitting again gives the segments back. |
| Paths.FieldPathToStringWords | libs/api/src/lib/content-loader/utils.ts:437-456 | For word-character names, `fieldPathToString` is the `.`-join of the names. |
| Paths.FieldPathWordsRoundTrip | libs/api/src/lib/content-loader/utils.ts:437-456 | Splitting such a rendering on `.` gives back the names. |
| Paths.WordStep | libs/api/src/lib/content-loader/utils.ts:446-451 | Appending a word name after the first position adds `.` and the name. |
| Paths.FromPathStepPlain | libs/api/src/lib/content-loader/utils.ts:793-798 | A dot-free element is appended with a `.`, except to an empty accumulator. |
| Paths.FromPathPlain | libs/api/src/lib/content-loader/utils.ts:790-801 | For dot-free names and indices, `fromPath` is the `.`-join. |
| Paths.FromPathRoundTrip | libs/api/src/lib/content-loader/utils.ts:781-801 | For such paths, splitting `fromPath` on `.` gives back the elements, inverting `toPath`. |
| Walker.RelPath | libs/api/src/lib/content-loader/utils.ts:373-374 | At the root an entry's relative path is its name. Below the root it is the parent's path, then `/`, then the name. |
| Walker.ReadDirRec | libs/api/src/lib/content-loader/utils.ts:365-388 | A missing root lists nothing. A root whose `readdir` rejects rejects with that message. Otherwise it is the walk of its entries (stated by `WalkComplete`, `WalkListFirstFailure` and `ReadDirRecAdmitted`). |
| Walker.WalkNode | libs/api/src/lib/content-loader/utils.ts:373-385 | An entry whose `stat` rejects rejects the walk, whatever the filter would say. An admitted directory whose `readdir` rejects rejects it too. |
| Walker.WalkListFirstFailure | libs/api/src/lib/content-loader/utils.ts:371-387 | A directory's walk rejects iff one of its entries' walks rejects. It then carries the error of the first entry that rejects. |
| Walker.WalkAdmitted | libs/api/src/lib/content-loader/utils.ts:376-385 | Every path listed for an entry names a file the filter admitted. |
| Walker.WalkListAdmitted | libs/api/src/lib/content-loader/utils.ts:372-387 | Every path listed for a directory names an admitted file. |
| Walker.ReadDirRecAdmitted | libs/api/src/lib/content-loader/utils.ts:365-388 | Every path `readDirRec` returns names an admitted file. A missing root lists nothing. |
| Walker.WalkComplete | libs/api/src/lib/content-loader/utils.ts:376-385 | On a tree with no failing `stat` or `readdir`, and with a filter that never throws, the walk succeeds. It lists exactly the reference set: admitted files, under directories the filter admitted, with nothing below a rejected directory and no special entries. |
| Walker.WalkListComplete | libs/api/src/lib/content-loader/utils.ts:372-387 | The same completeness holds for a directory's entry list. |
| Walker.SomeMatch | libs/api/src/lib/content-loader/content-loader.ts:123 | `_.some` over excludes: false iff every pattern cleanly fails to match. True iff some pattern matches and all before it cleanly fail. It always succeeds when every pattern compiles. |
| Walker.LoaderFilter | libs/api/src/lib/content-loader/content-loader.ts:122-127 | An entry is admitted iff no exclude matches it and, for a file, its extension is loadable; directories are kept unless excluded. The filter never throws when the excludes are well-formed. |
| Walker.Insert | libs/api/src/lib/content-loader/content-loader.ts:129 | Inserting into a sorted list keeps it sorted and adds exactly that element. |
| Walker.SortStrings | libs/api/src/lib/content-loader/content-loader.ts:129 | The result is sorted in code-unit order and is a permutation of the input. |
| Walker.SortedUnique | libs/api/src/lib/content-loader/content-loader.ts:129 | Two sorted permutations of the same paths are equal, so the listing does not depend on `readdir` order. |
| Walker.LexTotal | libs/api/src/lib/content-loader/content-loader.ts:129 | The default string order is total. |
| Walker.LexTrans | libs/api/src/lib/content-loader/content-loader.ts:129 | The default string order is transitive. |
| Walker.ReadDir | libs/api/src/lib/content-loader/content-loader.ts:120-130 | A missing directory lists nothing. A directory whose `readdir` rejects gives that rejection. Otherwise the result is the filtered walk, sorted, as a permutation of it. It fails iff the walk throws, and then with the walk's error. |
| Walker.ReadDirAdmitted | libs/api/src/lib/content-loader/content-loader.ts:120-130 | Every listed path is a file no exclude matches, with one of the seven loadable extensions. |
| Walker.ReadDirComplete | libs/api/src/lib/content-loader/content-loader.ts:120-130 | On a tree with no failing `stat` or `readdir`, and with well-formed excludes, `readDir` succeeds and lists exactly the admitted files of the tree. |
| Walker.ReadDirFirstFailure | libs/api/src/lib/content-loader/content-loader.ts:120-130 | `readDir` rejects with the error of the first root entry whose walk rejects, whatever follows it. |
| Codec.Substring | libs/api/src/lib/content-loader/utils.ts:691-694 | JavaScript `substring` agrees with slicing on in-range bounds. |
| Codec.AfterDelimiterMatch | libs/api/src/lib/content-loader/utils.ts:692 | `/^\s*?(\n\|$)/`: a match consumes only whitespace and ends at a consumed newline or at the end. |
| Codec.Extract | libs/api/src/lib/content-loader/utils.ts:673-697 | A convention extracts something only if its start delimiter prefixes the text and its end delimiter occurs. The front matter is the text between the start delimiter and the first end delimiter. The body follows the whitespace run after it, which ends at its first newline (consumed) or at the end. A tail that does not match extracts nothing. |
| Codec.FirstStarting | libs/api/src/lib/content-loader/utils.ts:672-673 | Finds the first convention whose start delimiter prefixes the text, or reports that none does. |
| Codec.StartDelimitersExclusive | libs/api/src/lib/content-loader/utils.ts:646-671 | No string starts with two different start delimiters among `---\n`, `+++\n`, `---json\n` and `{\n`. |
| Codec.TryKindsNoStart | libs/api/src/lib/content-loader/utils.ts:672-700 | Conventions whose start delimiters do not match change nothing. |
| Codec.TryKindsFirst | libs/api/src/lib/content-loader/utils.ts:672-700 | With mutually exclusive delimiters, the loop's result is that of the one matching convention. |
| Codec.ParseMarkdownWithFrontMatter | libs/api/src/lib/content-loader/utils.ts:642-705 | The body is always a suffix of the normalised text. Without a start delimiter, the result is null front matter with the input as body, after only its first `\r\n` is normalised. |
| Codec.TryKindsSuffix | libs/api/src/lib/content-loader/utils.ts:672-700 | However many conventions are tried, the body stays a suffix of the text. |
| Codec.FrontMatterLoopIsFirstMatch | libs/api/src/lib/content-loader/utils.ts:642-705 | The source's loop, which lets later conventions overwrite, equals "first matching convention wins" on every input. |
| Codec.BadEndDelimiterNoFrontMatter | libs/api/src/lib/content-loader/utils.ts:674-697 | If the first end delimiter is followed by something other than whitespace and then a newline or the end, nothing is extracted. |
| Codec.FirstStartingIs | libs/api/src/lib/content-loader/utils.ts:672-673 | A convention whose start delimiter matches is the first matching one. |
| Codec.ExtractBadEnd | libs/api/src/lib/content-loader/utils.ts:690-697 | An unmatched tail after the first end delimiter extracts nothing. |
| Codec.NoCrlfInMarkdownText | libs/api/src/lib/content-loader/utils.ts:624-628 | A serialised document built from CRLF-free parts has no CRLF, so normalisation leaves it alone. |
| Codec.FirstEndDelimiter | libs/api/src/lib/content-loader/utils.ts:674 | In a serialised document, the first `\n---` is the one closing the dump. |
| Codec.MarkdownTextExtract | libs/api/src/lib/content-loader/utils.ts:690-696 | The text between the delimiters is the dump without its final newline. The body is what follows the end delimiter and its newline. |
| Codec.MarkdownBodySurvives | libs/api/src/lib/content-loader/utils.ts:672-697 | Parsing a serialised document gives back the body. The front matter is the YAML reading of the dump, or the reader's error. |
| Codec.FindYamlTerminator | libs/api/src/lib/content-loader/utils.ts:560 | Finds the first `\n---` followed only by whitespace, or reports that there is none. |
| Codec.StripYamlTerminatorExact | libs/api/src/lib/content-loader/utils.ts:560 | `t + "\n---" + whitespace` strips back to exactly `t`. |
| Codec.ParseDataByFilePath | libs/api/src/lib/content-loader/utils.ts:554-584 | Dispatch by extension: YAML is read after the trailing terminator is stripped; JSON and TOML go to their parsers; `md`, `markdown` and `mdx` go through the front matter parser; `js` and `jsx` return the text itself. An unsupported extension throws the source's message. |
| Codec.StringifyDataByFilePath | libs/api/src/lib/content-loader/utils.ts:607-640 | Dispatch by extension: YAML, JSON and TOML go to their writers; markdown is `---\n` + the front matter dump + `---\n` + the body; `js` and `jsx` return string data as is. An unsupported extension throws the source's message. |
| Codec.MarkdownDocFields | libs/api/src/lib/content-loader/utils.ts:701-704 | A parsed markdown value has `frontmatter` and `markdown` as given. |
| Codec.MarkdownRoundTrip | libs/api/src/lib/content-loader/utils.ts:621-628 | A markdown document serialises to `'---\n' + dump + '---\n' + body` and parses back to itself. This needs a dump ending in a newline, with no `\n---` or CRLF, that the YAML reader inverts. |
| Codec.JsonRoundTrip | libs/api/src/lib/content-loader/utils.ts:563-565 | JSON files parse back what they serialise, given a JSON library that does. |
| Codec.YamlRoundTrip | libs/api/src/lib/content-loader/utils.ts:558-562 | YAML files parse back what they serialise, given such a library and a dump with no trailing terminator. |
| Codec.UnsupportedExtensionFailsBothWays | libs/api/src/lib/content-loader/utils.ts:578-581 | Any extension outside the nine supported ones fails in both directions. |
| Values.SetKey | libs/api/src/lib/content-loader/utils.ts:847 | `obj[k] = x`: `k` then holds `x`, every other key is unchanged, and no entry is invented. |
| Values.SetKeyKeys | libs/api/src/lib/content-loader/utils.ts:847 | Assigning an existing key keeps the key order. A new key is appended. |
| Values.OmitKey | libs/api/src/lib/content-loader/content-loader.ts:181 | `_.omit`: the key is gone and every other key is unchanged. |
| Values.ConcatValue | libs/api/src/lib/content-loader/utils.ts:846 | `concat` splices an array argument one level and appends any other value. |
| Values.Compact | libs/api/src/lib/content-loader/content-loader.ts:374 | `_.compact` keeps exactly the truthy values, and only values of the input. |
| Values.CompactAppend | libs/api/src/lib/content-loader/content-loader.ts:374 | Compacting a concatenation is the concatenation of the compacted parts, so the kept values stay in order with their multiplicity. |
| Schema.KeyByName | libs/api/src/lib/content-loader/content-loader.ts:348 | `_.keyBy(models, 'name')` has exactly the models' name keys, with `undefined` for unnamed models. |
| Schema.KeyByNameLast | libs/api/src/lib/content-loader/content-loader.ts:348 | The model stored under a name is the last model with that name. |
| Schema.ModelsOfKind | libs/api/src/lib/content-loader/content-loader.ts:66 | Keeps exactly the models of the given `type`. |
| Schema.ModelsOfKindAppend | libs/api/src/lib/content-loader/content-loader.ts:66 | Selecting from a concatenation concatenates the selections: model order and multiplicity are kept. |
| Schema.FirstOfKind | libs/api/src/lib/content-loader/content-loader.ts:49 | Returns the first model of the given `type`, or none exactly when no model has it. |
| Schema.FindField | libs/api/src/lib/content-loader/content-loader.ts:227 | Returns a field with that name, or none exactly when no field has it. The field returned is the first one with that name. |
| Schema.Attr | libs/api/src/lib/content-loader/model-matcher.ts:120 | `_.get(model, key)` on the key paths the loader passes (`name`, `layout`, `file`). |
| Strings.ReplaceFirst | libs/api/src/lib/content-loader/utils.ts:643 | A string pattern replaces only the first occurrence. Without one, the text is unchanged. |
| Strings.IndexOf | libs/api/src/lib/content-loader/utils.ts:674 | `indexOf` returns the first occurrence, or none exactly when there is none. |
| Strings.Trim | libs/api/src/lib/content-loader/content-loader.ts:15 | `_.trim(s, chars)` is the slice of `s` left once the maximal runs of trimmed characters at both ends are removed; it neither starts nor ends with a trimmed character. |
| Strings.CompactStrings | libs/api/src/lib/content-loader/content-loader.ts:15 | Keeps exactly the non-empty strings. |
| Strings.CompactStringsAppend | libs/api/src/lib/content-loader/content-loader.ts:15 | Compacting a concatenation concatenates the compacted parts, so the kept strings stay in order. |
| Strings.SplitJoin | libs/api/src/lib/content-loader/content-loader.ts:15 | Splitting a join of separator-free parts gives back the parts. |
| Strings.JoinSplitReplace | libs/api/src/lib/content-loader/utils.ts:939-940 | `split(c).join(d)` replaces every `c` by `d`. |
| Annotator.Metadata | libs/api/src/lib/content-loader/content-loader.ts:195-210 | `__metadata` holds:<br>• `srcObjectId` (the POSIX-converted path) only at the top of a file;<br>• `srcModelName` iff the model is named;<br>• `isList: true` only for list models;<br>• no other key. |
| Annotator.PositionInSchema | libs/api/src/lib/content-loader/content-loader.ts:335-337 | The schema position is `location: stackbit.yaml:` followed by the schema field path. |
| Annotator.JoinPathSplits | libs/api/src/lib/content-loader/content-loader.ts:335-341 | A `.`-joined path of plain elements splits back into those elements. |
| Annotator.PositionInSchemaPath | libs/api/src/lib/content-loader/content-loader.ts:335-337 | After the `location: stackbit.yaml:` prefix, splitting the schema position on `.` gives back the schema field path. |
| Annotator.PositionInData | libs/api/src/lib/content-loader/content-loader.ts:339-341 | The data position is `location: <filePath>:` followed by the data field path. |
| Annotator.PositionInDataPath | libs/api/src/lib/content-loader/content-loader.ts:339-341 | After the `location: <filePath>:` prefix, splitting the data position on `.` gives back the data field path. |
| Annotator.TypeModel | libs/api/src/lib/content-loader/content-loader.ts:306 | A model found through `type` is registered, and the value has a `type`. |
| Annotator.Boxed | libs/api/src/lib/content-loader/content-loader.ts:195 | `_.assign` stamps `__metadata` on an object. Arrays and strings come back unchanged. Other primitives become an object holding only `__metadata`. |
| Annotator.Callback | libs/api/src/lib/content-loader/content-loader.ts:212-259 | `__metadata`, falsy values and array indexes come back unchanged. A truthy named property goes through the field annotation. |
| Annotator.AddMetadata | libs/api/src/lib/content-loader/content-loader.ts:186-260 | The walk returns an array exactly for an array input. |
| Annotator.ItemCallback | libs/api/src/lib/content-loader/content-loader.ts:249-254 | Each list item is annotated by the item model at its own index. |
| Annotator.AnnotateField | libs/api/src/lib/content-loader/content-loader.ts:226-258 | Always yields data. A field the model does not declare comes back unchanged and without errors. |
| Annotator.AddMetadataByField | libs/api/src/lib/content-loader/content-loader.ts:262-333 | Only a `model` field reports errors of its own. Any other field reports only what annotating its value with some model reports. A reference to an object without `type` comes back unchanged. Dispatch by field type:<br>• object: recursed;<br>• model with no candidates: schema-position error;<br>• one candidate: recursed if registered, else schema-position error, `type` not needed;<br>• several candidates: `type` must name a registered model, else a data-position error;<br>• reference: recursed only when its `type` is registered;<br>• anything else: unchanged. |
| Annotator.ModelFieldOutcome | libs/api/src/lib/content-loader/content-loader.ts:267-319 | A model field either is annotated by a registered model, or comes back unchanged with exactly one error. |
| Annotator.ObjectWalk | libs/api/src/lib/content-loader/content-loader.ts:195-212 | Walking an object is the reducer over the object stamped with its `__metadata`. |
| Annotator.MetadataStamped | libs/api/src/lib/content-loader/content-loader.ts:195-217 | The walked object's `__metadata` is exactly the metadata for this model and position. |
| Annotator.KeysKept | libs/api/src/lib/content-loader/content-loader.ts:212-259 | The walked object has exactly the input's keys plus `__metadata`. |
| Annotator.PassThrough | libs/api/src/lib/content-loader/content-loader.ts:212-232 | Falsy values and undeclared fields come back unchanged. |
| Annotator.ListFieldItems | libs/api/src/lib/content-loader/content-loader.ts:241-255 | A list of objects, models or references is annotated item by item. The result is the annotated items in order, spliced one level as `concat` does. Its errors are the items' errors in order. Item `i` is reported at data path `…, name, i` and schema path `…, name, items`. |
| Annotator.PrimitiveBoxed | libs/api/src/lib/content-loader/content-loader.ts:195-210 | A number, boolean or null reached by the walk becomes an object holding only its `__metadata`, with no errors. |
| Annotator.StringBoxed | libs/api/src/lib/content-loader/content-loader.ts:195-212 | A string reached by the walk becomes an object, with no errors. |
| Annotator.NormalizeDataObject | libs/api/src/lib/content-loader/content-loader.ts:172-177 | An array is wrapped as `{items}` iff the model is a list model. Otherwise the data is unchanged. |
| Annotator.NormalizePageObject | libs/api/src/lib/content-loader/content-loader.ts:179-184 | With `hideContent`, `markdown_content` is gone and every other property is kept. Without it, the page is unchanged. |
| Annotator.OwnFields | libs/api/src/lib/content-loader/content-loader.ts:181 | An object's own properties are its fields. Other values have one property per visited entry. |
| Loader.IsSubFolder | libs/api/src/lib/content-loader/content-loader.ts:14-18 | True iff the parent's trimmed, non-empty `/` segments are a prefix of the child's. `''` is a parent of every folder. |
| Loader.InferConfigFiles | libs/api/src/lib/content-loader/content-loader.ts:20-30 | A config file list is inferred exactly for gatsby, hugo and jekyll, and it is never empty. |
| Loader.DataDirExcludes | libs/api/src/lib/content-loader/content-loader.ts:355-357 | A non-empty data directory inside the pages directory is excluded as `trim(dataDir,'/')/**/*`. |
| Loader.RootPagesExcludes | libs/api/src/lib/content-loader/content-loader.ts:358-366 | When pages are at the root, `node_modules/**/*`, every config file and, for a non-empty publish directory, `trim(publishDir,'/')/**/*` are excluded. Otherwise nothing is. |
| Loader.PageExcludes | libs/api/src/lib/content-loader/content-loader.ts:347-366 | The page exclusions are the schema's own, then the fixed list, then the data-directory rule, then the root-pages rule including the publish directory. When pages are not at the root, nothing else is added. |
| Loader.FirstExisting | libs/api/src/lib/content-loader/utils.ts:511-516 | Returns the first config name whose resolved path exists, or none exactly when none exists. |
| Loader.LoadErrorMessage | libs/api/src/lib/content-loader/content-loader.ts:151 | The load error starts with `error loading file, file: <path>, error: `. |
| Loader.AssignMarkdown | libs/api/src/lib/content-loader/content-loader.ts:146 | Object front matter keeps every other property and gains the body under `markdown_content`. No front matter, a number or a boolean gives an object holding only `markdown_content`. Array or string front matter keeps exactly its indexed entries, and the body is not visible. |
| Loader.ParseFileWithErrors | libs/api/src/lib/content-loader/content-loader.ts:135-154 | The corrected parser never throws. A read or parse failure gives null data and exactly one load error naming the file. Success gives no errors. |
| Loader.MarkdownFlattened | libs/api/src/lib/content-loader/content-loader.ts:141-147 | A markdown file with object front matter loads as its front matter fields plus `markdown_content`. |
| Loader.MarkdownStringFrontMatter | libs/api/src/lib/content-loader/content-loader.ts:141-147 | A markdown file whose front matter is a string loads as that string alone, without its body. |
| Loader.MarkdownDispatch | libs/api/src/lib/content-loader/utils.ts:569-573 | `md`, `markdown` and `mdx` go through the front matter parser. |
| Loader.CorrectParser | libs/api/src/lib/content-loader/content-loader.ts:132-155 | The corrected parser always resolves, with the result above. |
| Loader.AsWrittenParser | libs/api/src/lib/content-loader/content-loader.ts:132-134 | The parser as written throws `utils is not defined` on every call. |
| Loader.LodashGet | libs/api/src/lib/content-loader/content-loader.ts:161 | `_.get` with a string key reads one property when the key has no `.` or the object holds it as it is. |
| Loader.LodashGetDeep | libs/api/src/lib/content-loader/content-loader.ts:161 | A dotted key the object does not hold as such reads the nested property along its `.`-separated parts. |
| Loader.ObjectType | libs/api/src/lib/content-loader/content-loader.ts:161 | No type key gives `null`. Otherwise the type is `null` exactly when `_.get` finds nothing or `null` under the key. |
| Loader.ObjectTypeNested | libs/api/src/lib/content-loader/content-loader.ts:161 | The type key `meta.layout` reads `post` from `{meta: {layout: 'post'}}`. A property literally named `meta.layout` takes precedence. |
| Loader.MatchObjectToModel | libs/api/src/lib/content-loader/content-loader.ts:157-170 | The query's type is read with lodash's deep-path rule (`ObjectType`). Exactly one match returns that model. No match throws the not-matched message, and several matches throw the several-models message naming them in model order. A throwing glob propagates. |
| Loader.LoadFile | libs/api/src/lib/content-loader/content-loader.ts:70-85 | A throwing parser rejects. Falsy data contributes only the parser's errors. A matcher error is caught and becomes the one error. Otherwise the data is the matched model's normalised object, annotated from the file's project-relative path, with the annotation's errors. |
| Loader.LoadFilesErrors | libs/api/src/lib/content-loader/utils.ts:871-895 | When no file rejects, the load succeeds. Its errors are every file's errors in file order, so a bad file does not stop the others. |
| Loader.LoadFilesFirstRejection | libs/api/src/lib/content-loader/utils.ts:871-895 | The first rejecting file rejects the whole load, with its error. |
| Loader.FileSteps | libs/api/src/lib/content-loader/utils.ts:871-895 | The results of loading the files one by one, in file order. |
| Loader.LoadFilesData | libs/api/src/lib/content-loader/utils.ts:871-895 | When no file rejects, the data is the files' present data in file order, an array result spliced one level. |
| Loader.LoadData | libs/api/src/lib/content-loader/content-loader.ts:59-86 | Without a data directory nothing is loaded and there are no errors. |
| Loader.PageTypeKey | libs/api/src/lib/content-loader/content-loader.ts:94 | An absent `pageLayoutKey` gives `layout`. A `null` key reads no type. A string key is used iff it is non-empty. The key is never empty. |
| Loader.LoadPages | libs/api/src/lib/content-loader/content-loader.ts:88-118 | Without a pages directory nothing is loaded and there are no errors. |
| Loader.LoadConfigFile | libs/api/src/lib/content-loader/content-loader.ts:32-57 | No config files, none existing, or an empty name yields null data and no errors. Otherwise a throwing parse rejects; falsy data yields null and the parser's errors; no `config` model yields null and `config model not found`; else the data annotated by the first `config` model from the config file's path. |
| Loader.ContentDirs | libs/api/src/lib/content-loader/content-loader.ts:376 | The loaded directories are exactly the non-empty ones of data and pages. |
| Loader.LoadContentWith | libs/api/src/lib/content-loader/content-loader.ts:373-377 | Every value in the result is truthy, and the loaded directories are the compacted pair. |
| Loader.LoadContent | libs/api/src/lib/content-loader/content-loader.ts:343-378 | With the corrected parser, loading rejects only when the data or pages directory cannot be listed. That happens for an unreadable directory, an entry whose `stat` fails, or a malformed exclude pattern. A data-directory listing failure is the rejection. On success the loaded directories are the compacted pair. |
| Loader.CorrectedLoadOutcome | libs/api/src/lib/content-loader/content-loader.ts:343-378 | The same rejection rule, stated for the loader run with the corrected parser. |
| Loader.DataDirUnreadableRejects | libs/api/src/lib/content-loader/content-loader.ts:58-67 | A data directory that exists but whose `readdir` rejects makes `loadContent` reject with that message. |
| Loader.BrokenDataEntryRejects | libs/api/src/lib/content-loader/utils.ts:371-375 | An entry of the data directory whose `stat` rejects makes `loadContent` reject with that message, once the entries before it walk cleanly. |
| Loader.LoadContentAggregates | libs/api/src/lib/content-loader/content-loader.ts:369-377 | When loading succeeds, the data is the config, data and pages results concatenated in that order and then compacted. The errors are their error lists concatenated in that order. |
| Loader.CorrectedDirNeverRejects | libs/api/src/lib/content-loader/content-loader.ts:98-117 | With the corrected parser, a directory load never rejects. Its errors are the files' errors in sorted file order. |
| Loader.AsWrittenRejectsData | libs/api/src/lib/content-loader/content-loader.ts:132-134 | With the parser as written, any listed data file rejects the data load with `utils is not defined`. |
| Loader.ConfigParseThrows | libs/api/src/lib/content-loader/content-loader.ts:37-43 | An existing config file whose parse throws makes the config step throw the same error. |
| Loader.ConfigParseResolves | libs/api/src/lib/content-loader/content-loader.ts:32-57 | A parser that never throws never makes the config step throw. |
| Loader.ConfigThrowPropagates | libs/api/src/lib/content-loader/content-loader.ts:369 | A throwing config step makes `loadContent` throw the same error. |
| Loader.AsWrittenRejectsConfig | libs/api/src/lib/content-loader/content-loader.ts:132-134 | As written, `loadContent` rejects whenever a config file exists, while the corrected config step resolves. |
| Api.BeforeFirst | libs/api/src/lib/api.ts:45 | `split('.')[0]` is the longest prefix without `.`. It ends at the first `.`, or is the whole string when there is none. |
| Api.FileToUrl | libs/api/src/lib/api.ts:41-50 | `undefined` iff the path does not start with `content/pages`, a string test and not a segment test. A URL never contains `.`. |
| Api.PageUrl | libs/api/src/lib/api.ts:44-45 | A page file's URL is its path under `content/pages` without the extension. |
| Api.IndexPageUrl | libs/api/src/lib/api.ts:46-48 | An index page's URL is its directory's URL, and `/` at the top. |
| Api.FixtureUrls | libs/api/src/lib/api.spec.ts:15 | The fixture pages `content/pages/index.md` and `content/pages/about.md` map to `/` and `/about`. |
| Api.SpreadLookup | libs/api/src/lib/api.ts:35-38 | After `{...base, ...extra}`, a key holds extra's value if present, and base's otherwise. |
| Api.Spread | libs/api/src/lib/api.ts:35-38 | A spread invents no property: each comes from the base or the spread object. Every key of the base is still present. |
| Api.DocumentMetadata | libs/api/src/lib/api.ts:36 | The metadata `id` is the relative file path. |
| Api.ParseContent | libs/api/src/lib/api.ts:22-33 | Any extension but `md` and `json` throws `Unsupported file type found at: <path>`. JSON is `JSON.parse` of the text. |
| Api.MarkdownDocument | libs/api/src/lib/api.ts:23-27 | A markdown document holds:<br>• the excerpt;<br>• every front matter field other than `excerpt`;<br>• the body under `content`, unless the front matter has its own `content`. |
| Api.ReadContent | libs/api/src/lib/api.ts:19-39 | A read failure propagates. A document is always an object. |
| Api.ReadContentFields | libs/api/src/lib/api.ts:35-38 | Every property of the file is kept. Without its own `__metadata`, the document carries `{id, url}`. |
| Api.SiteConfig | libs/api/src/lib/api.ts:75-77 | Reads `content/data/config.json`. A read failure propagates, and the result is an object. |
| Api.SiteConfigMetadata | libs/api/src/lib/api.ts:8-10 | The config's metadata is `{id: 'content/data/config.json', url: undefined}`. |
| Api.UrlToFilePairs | libs/api/src/lib/api.ts:52-55 | One `(fileToUrl(file), file)` pair per page file, in order. |
| Api.FileForUrl | libs/api/src/lib/api.ts:58-59 | `Object.fromEntries(...)[url]` is the last file with that URL key, or none exactly when no pair has that key. |
| Api.UrlToContent | libs/api/src/lib/api.ts:57-61 | A URL no page has throws. Otherwise the result is the document of the last file with that URL. |
| Api.PageEntry | libs/api/src/lib/api.ts:66-70 | A file is kept iff its URL is defined and non-empty and its `type` is the requested one; it is then kept under that URL. An empty name is skipped unread. |
| Api.LastKept | libs/api/src/lib/api.ts:66-70 | The reference reading gives nothing under a URL exactly when no entry was kept under it. |
| Api.LastKeptIsLast | libs/api/src/lib/api.ts:69 | The value under a URL comes from a kept entry with no later kept entry under the same URL. |
| Api.CollectLookup | libs/api/src/lib/api.ts:64-72 | The object built by assignment holds, under each URL, the last entry kept for it. |
| Api.Collect | libs/api/src/lib/api.ts:64-72 | Every property of the built object is a kept entry. |
| Api.PagesBySlug | libs/api/src/lib/api.ts:63-73 | Succeeds iff every named page file reads. |
| Api.PagesBySlugKeys | libs/api/src/lib/api.ts:63-73 | The result has a URL iff some page file is stored under it, and then holds the last such page: later duplicates win. |

## Left out

- **Asynchrony:**
  - The promise helpers and the async `dataReducer` are modelled as the sequential fold `Loader.LoadFiles`, with the same semantics as `dataReducerSync`.
  - The rejection of the async chain is a `Result` failure.
- **File system:**
  - `fse.pathExists`, `readdir`, `stat`, `readFile`, `getFirstExistingFile`'s existence check and `fast-glob`'s listing of page files are parameters.
  - `api.ts`'s `contentFilesInPath` (lines 14-17) is not modelled; the page file list is an input.
  - The writers (`outputData*`, `copyFilesRecursively`) are not part of this model.
- **Foreign libraries:**
  - The YAML, TOML and JSON libraries, gray-matter and micromatch are parameters with no assumed behaviour beyond what a lemma states in its `requires`.
  - `utils.ts` calls `yaml.safeLoad` and `yaml.safeDump` on the `yaml` package. Whether that package provides them is outside this model.
- **Floating point:** numbers are integers. JavaScript number formatting, `NaN` and `-0` are not modelled. `hrtimeAndPrint` and the logging are left out.
- **JavaScript object key order:**
  - Integer-like keys, which JavaScript enumerates first, are not reordered.
  - Objects keep insertion order, and `Sorted` uses code-point order where JavaScript compares UTF-16 code units. The two agree below U+10000.
- **Lodash and `path` details:**
  - `path.join` is modelled for relative paths without `..`.
  - Lodash dotted key paths such as `a.b` are read as single keys: for `modelTypeKeyPath`, and for the `_.has(modelsByName, …)` lookups of a model name or a `type` (content-loader.ts:281, 306 and 323). The page type key read with `pageLayoutKey` (content-loader.ts:161) does follow dotted paths (`Loader.LodashGet`).
  - `path.join` and `path.relative` use `/` as the separator, whatever the platform.
  - A `type` that is an object or array gives no model name (`Annotator.PropertyKey`).
- **Other helpers:**
  - `encodeJsx`, `decodeJsx`, `deepFreeze`, `omitDeep`, `forEachDeep`, `indent`, `pascalCase` and the lodash path wrappers (`copy`, `rename`, `append`, `concat`, `mergeAtPath`, `getFirst`) are not part of the loading path.
  - `utils.ts:897` reads the undeclared `JSX_ENCODE_ENTITIES` at module level. The model assumes the module loads.
- **Workspace root:**
  - `workspaceRoot()` and its environment probing are out of scope; file reads take workspace-relative paths.
  - `api.ts` imports `workspacePath` from `libs/api/src/lib/utils.ts`, whose text exports only `workspaceRoot`. `workspacePath` is not part of this model.
- **In-place mutation:** `loadContent` pushes onto `schema.excludePages` in place. The model builds a new list with the same contents and order.
- **Logging:** `console.error` and `console.log` calls are dropped.
- Api.UrlToContent: a URL with no page leads the source to call `readContent(undefined)`, which throws a path-type error. The model fails with its own message, not the runtime's.
- Matcher.GetModelsByQuery: its own ensures says only that matches come from the input. Precedence and tier contents are stated by `FileTierWins`, `TypeTierNext` and `GlobTierLast`.
- Loader.LoadData / Loader.LoadPages: their ensures cover only the missing-directory case. Per-file behaviour is stated by `LoadFile`; the fold over the files by `LoadFilesData`, `LoadFilesErrors`, `LoadFilesFirstRejection` and `CorrectedDirNeverRejects`.
- Codec.StringifyDataByFilePath: for `js` and `jsx` with non-string data the source returns the data itself, not a string; the model returns its string conversion. For markdown with `null` or `undefined` data the source throws on `data.frontmatter`; the model dumps `undefined` front matter instead.
- Walker.WalkNode: its ensures cover only the rejecting entries. Walker.WalkList, Reducer.ReduceArray and Reducer.ReduceObject carry no ensures of their own. Their behaviour is stated by `WalkAdmitted`, `WalkListAdmitted`, `WalkComplete`, `WalkListComplete`, `WalkListFirstFailure`, `ReduceArrayData`, `ReduceArrayErrors`, `ReduceObjectErrors` and `ReduceObjectKeyData`.
- Walker.WalkComplete / Walker.WalkListComplete / Walker.ReadDirComplete: completeness is stated for trees in which no `stat` or `readdir` fails. Failing entries are covered by `WalkNode`, `WalkListFirstFailure` and `ReadDirFirstFailure`.
- Loader.AssignMarkdown: front matter that is the empty string is modelled as the falsy empty string. In the source, `_.assign` boxes it into a truthy `String` object, so the page loads as `{}`. The model drops the file without an error instead.
- Loader.PageTypeKey: a `pageLayoutKey` that is a number, boolean or object is not modelled; only an absent key, `null` and strings are.
- Loader.LodashGet: bracket paths such as `a[0]`, array indexes along a path and inherited properties are not modelled; a path steps only through object properties.

## Findings

| source | as written | input that shows it | evidently intended | confidence | as-written member | corrected member |
|---|---|---|---|---|---|---|
| libs/api/src/lib/content-loader/content-loader.ts:132-134 | `parseFileWithErrors` calls `utils.parseFile`, but the module imports only named helpers and binds no `utils`, so every call throws a `ReferenceError` before reading. The rejection is not caught inside the function, so `loadContent` rejects. | Any schema with a data directory holding one loadable file, or an `ssgName` whose config file exists. | Read the file, dispatch on its extension, flatten markdown front matter, and turn any failure into one error entry (lines 135-154). | not executed | Loader.AsWrittenParser, Loader.AsWrittenRejectsData, Loader.AsWrittenRejectsConfig | Loader.ParseFileWithErrors, Loader.CorrectParser, Loader.CorrectedDirNeverRejects |
