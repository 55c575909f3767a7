# goparamcount in Dafny

goparamcount is a Go linter that reports function declarations with more
parameters than a configured limit. Exported (public) and unexported
(private) functions have separate limits. This project models the linter's
decision logic and proves properties of it:

- `ParamLimit` (params.dfy) is the check itself. It counts a declaration's
  parameters: every bound name counts once, grouped (`a, b int`) or
  variadic (`b ...int`). It decides visibility by the first letter of the
  name and picks the limit of that class. `checkForParamLimit` gives one
  issue per offending declaration, in declaration order. Declarations are
  already-parsed values: a name, a list of parameter groups and a body text
  that the check never reads.
- `Walk` (walk.dfy) holds the file-selection predicates. `skipDir` skips
  every directory when the walk is not recursive. When it is recursive, it
  skips only `.git`, `testdata` and `vendor`. `skipFile` skips files that
  are not `.go` files. It skips `_test.go` files unless tests are included.
  It also skips files whose base name matches an exclude pattern. The
  include-tests setting is a package global in the source; here it is the
  explicit parameter `includeTests`.
- `Glob` (glob.dfy) is the pattern matcher that `skipFile` uses. `*`
  matches any run of characters except `/`, `?` matches one character
  except `/`, and every other character matches itself.
- `Flags` (flags.go, flags.dfy) holds the "no limit set" sentinel. The
  `max`, `private-max` and `public-max` flags default to `math.MaxInt32`.
  `noLimitIsSet` is a loop with an early exit. It is proved equal to
  "every value is the sentinel".

The behaviour of `checkForParamLimit`, `isPublicFunc`, `skipDir` and
`skipFile` is modelled as `main_test.go` and `walk_test.go` assert it.
Every case of `TestCheckForParamLimit`, `TestIsPublicFunc`, `TestSkipDir`
and `TestSkipFile` is restated as a lemma over the model. `filepath.Base` and `filepath.Ext`
are modelled as `Walk.Base` and `Walk.Ext` for `/`-separated paths.
`Walk.ExtIsGoIffSuffix` shows that testing the extension and testing the
`.go` suffix agree, so either reading of `skipFile` gives the same answer.

## Model

| member | source | states |
|---|---|---|
| Flags.NoLimitIsSet | flags.go:47-55 | returns true exactly when every argument equals `math.MaxInt32`, and false exactly when some argument differs from it |
| Flags.NoArgumentsMeansNoLimit | flags.go:47-55 | with no arguments, no limit counts as set |
| Flags.AnySetLimitCounts | flags.go:48-51 | one value other than the sentinel, at any position, makes the answer false |
| Flags.AllUnsetAppend | flags.go:47-55 | the answer for two argument lists joined is the conjunction of the two answers |
| Flags.AllUnsetIgnoresOrder | flags.go:47-55 | argument lists holding the same values get the same answer, whatever the order or repetition |
| Flags.AllUnsetPermutation | flags.go:47-55 | a permutation of the arguments gives the same answer |
| Flags.DefaultsMeanNoLimit | flags.go:15-29 | `max`, `private-max` and `public-max` all default to 2147483647, so with no flags given no limit is set |
| ParamLimit.CheckForParamLimit | main_test.go:53-216 | no more issues than declarations; no issue at all exactly when every declaration is within the limit of its class (`AllWithinLimits`); every issue's count exceeds its threshold (that each declaration contributes at most one issue is `CheckAppend` with `CheckSingle`; which issues appear is `CheckComplete` and `CheckSound`) |
| ParamLimit.ParamCount | main_test.go:54-178 | the parameter count is the number of bound names (`AllNames`), grouping and variadic markers forgotten; `ParamCountAppend`, `RegroupingKeepsCount` and `VariadicCountsLikeAnyGroup` build on it |
| ParamLimit.Threshold | main_test.go:179-215 | the limit applied is always one of the two configured limits, and when the two are equal visibility makes no difference; which one applies is `PrivateUnlessUpperFirst` |
| ParamLimit.IsPublicFunc | main_test.go:218-249 | a public name is non-empty and starts with neither `_`, a lower-case letter nor a digit; the exact rule (public exactly when the first character is `A`..`Z`) is `PrivateUnlessUpperFirst` |
| ParamLimit.ParamCountAppend | main_test.go:104-128 | the count of a parameter list is the sum of the counts of its parts |
| ParamLimit.RegroupingKeepsCount | main_test.go:129-153 | two signatures binding the same names count the same, however the names are grouped |
| ParamLimit.VariadicCountsLikeAnyGroup | main_test.go:154-178 | making a group variadic or not leaves the count unchanged |
| ParamLimit.PrivateUnlessUpperFirst | main_test.go:218-249 | a declaration is public exactly when its name starts with `A`..`Z`; empty, lower-case, underscore and digit names are private |
| ParamLimit.VisibilityByFirstChar | main_test.go:218-249 | visibility depends only on the first character of the name |
| ParamLimit.VisibilityOfTestNames | main_test.go:218-249 | `localFunction` and `_localFunction` are private and `PublicFunction` is public |
| ParamLimit.CheckAppend | main_test.go:179-215 | the issues of a file in two parts are those of the first part followed by those of the second, so issues follow declaration order |
| ParamLimit.CheckSingle | main_test.go:129-153 | one declaration yields exactly one issue, with its count and the threshold of its class, when it exceeds that threshold, and none otherwise |
| ParamLimit.CheckComplete | main_test.go:179-215 | every declaration over its class's limit is reported |
| ParamLimit.CheckSound | main_test.go:179-215 | every issue comes from a declaration over its class's limit and carries that declaration's count and threshold |
| ParamLimit.CheckIgnoresBodies | main_test.go:79-103 | declarations with the same names and parameters get the same issues, whatever their bodies say |
| ParamLimit.RaisingLimitsNeverAddsIssues | main_test.go:53-216 | raising either limit never increases the number of issues |
| ParamLimit.UnsetLimitsReportNothing | flags.go:15-29 | with both limits at the sentinel, no declaration with at most 2147483647 parameters is reported |
| ParamLimit.UnsetPublicLimitDisablesPublic | flags.go:25-29 | with the public limit at the sentinel and no declaration over 2147483647 parameters, every issue names a private declaration and carries the private limit |
| ParamLimit.UnsetPrivateLimitDisablesPrivate | flags.go:20-24 | with the private limit at the sentinel and no declaration over 2147483647 parameters, every issue names a public declaration and carries the public limit |
| ParamLimit.GroupedPairWithinLimit | main_test.go:54-78 | `localFunction(a, b int)` under limits 2/2 gives no issue |
| ParamLimit.LoneVariadicWithinLimit | main_test.go:79-103 | `localFunction(a ...int)` under limits 1/1 gives no issue, although its body uses undeclared names |
| ParamLimit.DistinctPairOverLimit | main_test.go:104-128 | `localFunction(a int, b string)` under limits 1/1 gives exactly one issue |
| ParamLimit.GroupedTripleOverLimit | main_test.go:129-153 | `localFunction(a, b, c int)` under limits 1/1 gives the single issue (count 3, threshold 1) |
| ParamLimit.TrailingVariadicOverLimit | main_test.go:154-178 | `localFunction(a int, b ...int)` under limits 1/1 gives the single issue (count 2, threshold 1) |
| ParamLimit.SeparatePublicAndPrivateLimits | main_test.go:179-215 | under private limit 2 and public limit 1, the four declarations give exactly two issues, for `localFunctionBar` (3 > 2) and `PublicFunctionBar` (2 > 1), in that order |
| Glob.Match | walk_test.go:60-66 | a name holding a `/` matches only a pattern holding one: neither `*` nor `?` crosses a separator; the pattern shapes are characterised by `StarFreeMatch`, `StarSplit` and `PrefixStarSuffix` |
| Glob.StarSplit | walk_test.go:60-66 | `*q` matches a name exactly when some prefix without `/` can be given to the star and `q` matches the rest |
| Glob.StarSplitFound | walk_test.go:60-66 | every match of `*q` gives such a split |
| Glob.StarTakesPrefix | walk_test.go:60-66 | every such split gives a match of `*q` |
| Glob.MatchLiteral | walk_test.go:60-66 | a pattern without `*` or `?` matches exactly itself |
| Glob.PrefixStarSuffix | walk_test.go:60-66 | `prefix*suffix` (like `foo*.go`) matches exactly the names that start with the prefix and end with the suffix, without overlap and with no `/` between them |
| Glob.StarFreeMatch | walk_test.go:60-66 | a pattern without `*` matches exactly the names of its length in which each `?` stands against a character other than `/` and each other pattern character against itself |
| Glob.StarMatchesAnyName | walk_test.go:60-66 | `*` matches exactly the names without a `/` |
| Walk.Base | walk_test.go:21-36 | the base name is never empty and holds a `/` only when it is `/` itself; `BaseOfName`, `BaseOfJoin` and `BaseIgnoresTrailingSeparators` give its value |
| Walk.Ext | walk_test.go:42-53 | the extension is empty or a suffix of the path that starts with its only `.` and holds no `/`; `ExtIsGoIffSuffix` ties it to the `.go` suffix |
| Walk.AnyMatch | walk_test.go:60-66 | when the exclude list does not match, none of its patterns matches; `AnyMatchIffSomeMatch` gives both directions |
| Walk.SkipDir | walk_test.go:8-37 | a directory is descended into only when the walk is recursive, and a directory whose base name is `.git`, `testdata` or `vendor` is always skipped; `NonRecursiveNeverDescends`, `DeniedDirSkippedAnywhere` and `OrdinaryDirDescended` give the full answer |
| Walk.SkipFile | walk_test.go:39-67 | a file that is analysed ends in `.go`, is not a `_test.go` file unless tests are included, and no exclude pattern matches its base name; `SkipFileIff` gives the converse too |
| Walk.BaseOfName | walk_test.go:60-66 | a non-empty name without `/` is its own base name |
| Walk.BaseIgnoresTrailingSeparators | walk_test.go:21-36 | trailing separators do not change the base name of a non-empty path |
| Walk.BaseOfJoin | walk_test.go:21-36 | the base name of `dir/name` is `name`, whatever `dir` is |
| Walk.ExtIsGoIffSuffix | walk_test.go:42-53 | the extension is `.go` exactly when the path ends in `.go` |
| Walk.TestFileIsGoFile | walk_test.go:54-59 | a path ending in `_test.go` ends in `.go` |
| Walk.AnyMatchIffSomeMatch | walk_test.go:60-66 | the exclude list matches exactly when one of its patterns matches |
| Walk.NonRecursiveNeverDescends | walk_test.go:9-14 | without recursion, every directory is skipped |
| Walk.OrdinaryDirDescended | walk_test.go:15-20 | with recursion, a directory whose name is not denied is descended into, both under any parent directory and as a bare top-level name, with any number of trailing separators |
| Walk.DeniedDirSkippedAnywhere | walk_test.go:21-36 | with recursion, `.git`, `testdata` and `vendor` are skipped, both under any parent directory and as bare top-level names (as a walk from `.` visits them), with any number of trailing separators |
| Walk.SkipDirTestNonRecursive | walk_test.go:9-14 | `./directory` without recursion is skipped |
| Walk.SkipDirTestOrdinary | walk_test.go:15-20 | `./directory` with recursion is descended into |
| Walk.SkipDirTestDeniedGit | walk_test.go:22-25 | `./.git` with recursion is skipped |
| Walk.SkipDirTestDeniedTestdata | walk_test.go:27-30 | `./testdata` with recursion is skipped |
| Walk.SkipDirTestDeniedVendor | walk_test.go:32-35 | `./vendor` with recursion is skipped |
| Walk.SkipFileIff | walk_test.go:39-67 | a file is analysed exactly when it ends in `.go`, is not a `_test.go` file unless tests are included, and no exclude pattern matches its base name |
| Walk.TestFileFollowsSetting | walk_test.go:54-59 | a `_test.go` file that no pattern excludes is skipped when tests are off and analysed when they are on |
| Walk.IncludingTestsSkipsNoMore | walk_test.go:54-59 | a file skipped with tests included is also skipped without them |
| Walk.MorePatternsSkipMore | walk_test.go:60-66 | adding exclude patterns never makes a skipped file analysed |
| Walk.SkipFileTestNotGo | walk_test.go:42-47 | `file.txt` is skipped |
| Walk.SkipFileTestGo | walk_test.go:48-53 | `file.go` is analysed when there are no exclude patterns |
| Walk.SkipFileTestTestFile | walk_test.go:54-59 | `file_test.go` is skipped while tests are not included |
| Walk.SkipFileTestExcluded | walk_test.go:60-66 | `foobar.go` is skipped under the exclude pattern `foo*.go` |

## Left out

- Flag registration, parsing and help texts (flags.go:9-45): these are calls into Go's `flag` package and fill global variables.
- The rule that turns `max`, `private-max` and `public-max` into the two limits lives in main.go. main.go is not part of this model.
- `analyzeFile`, reading files, and the Go parser are left out as I/O and a foreign parser. So are the three cases of `TestAnalyzeFile` (main_test.go:10-51): the two runs over the `testdata/src/foo.go` fixture and the missing-file error.
- The directory walk itself (`filepath.Walk`) is left out. `filepath.SkipDir` is modelled as the value `SkipSubtree` of a two-valued result.
- `Glob.Match` does not model `filepath.Match` character classes (`[...]`), `\` escapes, or the error on a malformed pattern. So the rule that a malformed pattern counts as "no match" has nothing to act on in this model.
- `ParamLimit.IsPublicFunc` recognises only ASCII `A`..`Z` as upper case. Go's exported-name rule uses Unicode upper case.
- Unnamed parameters (`func f(int, string)`), method receivers and generic type parameters are not counted. A group always binds exactly the names it lists.
- Issues record the declaration name, its count and the threshold. The file path and the line/column position are left out, and so are diagnostic printing, exit codes and verbose logging.
- Go's `int` is modelled as an unbounded integer. A limit can be any 64-bit value the `flag` package accepts, but the checker does no arithmetic on a limit: it only compares a count with it. A count is a sum of the numbers of names in a signature's groups, which never comes near 64-bit overflow.
- Running the checker twice on the same input gives the same issues. This holds trivially because the model is a set of functions, so no lemma states it.
