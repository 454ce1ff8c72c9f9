# commenter-action: where-clause evaluation and rule selection

This project models the decision logic of a GitHub Action that posts a comment on a
pull request when one of its configured rules applies. A rule has a name, a comment
body and a `where` clause. The clause has a required path glob (`path.matches`) and
three optional keys: `additions_or_deletions.contain` (needles searched in a file's
patch), `author.any` and `labels.any`. The action evaluates the clauses against the
pull request's change set in the order `Object.entries` lists the rules: rules with
integer-like names first, in ascending numeric order, then the others in declaration
order. The first rule that matches supplies the comment body, and the search stops
there. A comment is posted only when that body is a non-empty string.

Modules:

- `Wrappers` (`wrappers.dfy`): `Option`. It stands for `T | undefined` and `T | null`.
- `JsBuiltins` (`js_builtins.dfy`): the JavaScript built-ins the evaluator is built
  from. These are `Array.prototype.some`, `Array.prototype.includes` on strings and
  `String.prototype.includes`. Each is proved equal to a declarative definition: an
  existential over indices, sequence membership, and the `Substring` predicate.
- `ChangeSet` (`changes.dfy`): the `Changes` and `ChangedFile` data shapes.
- `Where` (`where.dfy`): the clause datatype and `matches`. That is the conjunction
  of the file, author and label matches, plus the `patchContains` helper. The module
  also proves lemmas about the evaluator and checks the unit-test fixture.
- `Commenter` (`commenter.dfy`): the rule-selection loop of `run`, including its
  `break`, and the post-only-if-truthy decision. `FirstMatch` is the specification
  the loop is proved against.

Foreign code becomes parameters:

- The glob matcher is a parameter `glob: (string, string) -> bool`. It answers for a
  pattern and a file name.
- Body resolution is a parameter `resolve: (string, Configuration) -> Option<string>`.
  It takes the selected rule's name and configuration.

The evaluator consists of Dafny functions, so it cannot modify its inputs.

The clause has only `additions_or_deletions.contain` for patch content. Each patch is
searched whole with `includes`, so an empty-string needle matches even an empty patch.
The path-only, author, label, needle and cross-file-needle cases of the unit tests are
covered by `Where.FixtureMatches` and `Where.FixtureMisses`.

## Model

| member | source | states |
|---|---|---|
| `JsBuiltins.AnySatisfies` | src/where.ts:27 | `xs.some(p)` holds iff some element satisfies `p` |
| `JsBuiltins.ArrayIncludes` | src/where.ts:36 | `xs.includes(x)` on string arrays is exactly membership |
| `JsBuiltins.StrIncludes` | src/where.ts:45 | `hay.includes(needle)` holds iff `needle` occurs at some position of `hay` |
| `Where.PatchContains` | src/where.ts:44-45 | `patchContains(patch, needles)` holds iff some needle is a substring of the whole patch |
| `Where.FileAccepted` | src/where.ts:28-31 | the per-file callback of `changedFiles.some` accepts a file iff the glob accepts its name and, when `additions_or_deletions` is present, some needle is a substring of that file's patch |
| `Where.HasFileMatch` | src/where.ts:27-32 | some changed file's name is accepted by the glob and, when `additions_or_deletions` is present, that same file's patch contains a needle |
| `Where.HasAuthorMatch` | src/where.ts:34-36 | true without an `author` key; false when the PR author is undefined; otherwise membership of the author in `author.any` |
| `Where.HasLabelMatch` | src/where.ts:38-39 | true without a `labels` key; otherwise some PR label is in `labels.any` |
| `Where.Matches` | src/where.ts:20-42 | a match implies a file accepted by the per-file test, a listed known author when `author` is given, and a listed label when `labels` is given |
| `Where.MatchesExactly` | src/where.ts:41 | `matches` is true iff the file, author and label conditions, spelled out over the inputs, all hold |
| `Where.PatchContainsEdges` | src/where.ts:44-45 | no needles never match; an empty-string needle matches every patch, including the empty one |
| `Where.NeedleMustBeInMatchedFile` | src/where.ts:27-32 | if no glob-accepted file's own patch holds a needle, the clause fails, whatever other files' patches hold |
| `Where.PatchesIrrelevantWithoutNeedles` | src/where.ts:30 | without `additions_or_deletions`, two change sets that differ only in patches give the same result |
| `Where.NoFilesNoMatch` | src/where.ts:27 | an empty `changedFiles` list makes every clause fail |
| `Where.NoLabelsFailLabelClause` | src/where.ts:38-39 | a PR without labels fails every clause that has a `labels` key |
| `Where.DroppingKeysKeepsMatch` | src/where.ts:27-41 | removing an optional key from a matching clause keeps it matching, so each key only narrows |
| `Where.FixtureMatches` | src/where.test.ts:30-62 | the four clauses the unit tests expect to match do match the fixture, given the glob's answers on its names |
| `Where.FixtureMisses` | src/where.test.ts:64-104 | the five clauses the unit tests expect to miss do miss, including the needle present only in another file's patch |
| `Commenter.Truthy` | src/commenter.ts:31 | defines `if (body)` on `string \| null`: true iff non-null and non-empty |
| `Commenter.FirstMatch` | src/commenter.ts:24-28 | the selected index is a matching rule with no matching rule before it; `None` only when no rule matches |
| `Commenter.Run` | src/commenter.ts:22-33 | the names of the rules whose clauses are evaluated are exactly those of the rules up to and including the first match, in order, and all names when nothing matches; the comment is that rule's body when it is a non-empty string; no match or a null or empty body posts nothing |
| `Commenter.FirstMatchOfConcatenation` | src/commenter.ts:24-27 | rules after the selected one never change the selection; rules that all miss only shift the index of the first match |

## Left out

- Glob semantics: the glob matching library is foreign code. It is a parameter of
  the evaluator. Constructing a matcher from a malformed pattern, which may throw, is
  not modelled.
- Fetching the change set from the hosting platform: pagination, the pull request
  lookup and debug logging (src/changes.ts:18-49). Only the data shapes are kept. A
  missing patch is replaced by the empty string there, so patches are always strings
  here.
- Loading the configuration (src/configuration.ts:15-25), which is YAML parsing of
  fetched content. The configuration is given as an ordered sequence of
  (name, configuration) pairs, in the order `Object.entries` yields them. That order
  puts integer-like rule names first, in ascending numeric order, and only then the
  other names in declaration order. Computing that order from the YAML document is
  not modelled.
- Badly shaped clauses: clauses are taken as well-typed `ConfigurationWhereClause`
  values, although the YAML is loaded untyped (src/configuration.ts:24). The
  TypeErrors that abort `run` through its `catch` (src/commenter.ts:34-46) are not
  modelled. These are a missing `path` (src/where.ts:25), `additions_or_deletions`
  without `contain` once a file passes the glob (src/where.ts:45), `author` without
  `any` when the PR author is known (src/where.ts:36), and `labels` without `any` when
  the PR has labels (src/where.ts:39). Non-string YAML scalars are not modelled
  either: a number in `any` never equals a string under `Array.includes`, while
  `String.includes` converts a numeric needle to a string.
- Strings are sequences of Unicode scalar values, not UTF-16 code units. Substring
  search and equality agree with JavaScript on well-formed strings. Strings holding
  lone surrogates cannot be represented.
- Resolving the comment body (src/configuration.ts:28-42) and fetching repository
  content (src/repo-content.ts). Both are behind the `resolve` parameter. The
  resolver's unbound `name` reference and its arity mismatch with the call site are
  not modelled.
- Reading inputs, building the API client, posting the comment and reporting errors
  with `setFailed` (src/commenter.ts:12-20, 34-56). These are I/O. `Commenter.Run`
  returns the body that would be posted. A rejected fetch inside the loop, which
  aborts the run, is not modelled.
- Asynchrony: the awaits in `run` are sequential, and they are modelled as ordinary
  sequential steps.
