/**
 * The where-clause evaluator: whether a pull request's change set
 * satisfies one rule's clause. The result is the conjunction of a
 * file-scoped match (glob on the file name and, optionally, a needle in
 * that same file's patch), an author match and a label match; each
 * optional dimension holds vacuously when its key is absent.
 */
module Where {
  import opened Wrappers
  import opened ChangeSet
  import opened JsBuiltins

  datatype PathClause = PathClause(matches: string)
  datatype ContainClause = ContainClause(contain: seq<string>)
  datatype AnyClause = AnyClause(any: seq<string>)

  /** A rule's clause: the required path glob and three optional keys. */
  datatype WhereClause = WhereClause(
    path: PathClause,
    additionsOrDeletions: Option<ContainClause>,
    author: Option<AnyClause>,
    labels: Option<AnyClause>)

  /**
   * The glob matcher: `Glob(pattern, filename)` is what a matcher built
   * from `pattern` answers for `filename`. Its semantics belong to an
   * external library and are left open.
   */
  type Glob = (string, string) -> bool

  /** `patchContains`: some needle occurs somewhere in the whole patch. */
  function PatchContains(patch: string, needles: seq<string>): (r: bool)
    ensures r <==> exists k :: 0 <= k < |needles| && Substring(needles[k], patch)
  {
    AnySatisfies(needles, needle => StrIncludes(patch, needle))
  }

  /** The per-file test handed to `changedFiles.some`. */
  predicate FileAccepted(f: ChangedFile, where: WhereClause, glob: Glob)
    ensures FileAccepted(f, where, glob) <==>
      glob(where.path.matches, f.filename) &&
      (where.additionsOrDeletions.None? ||
       exists k :: 0 <= k < |where.additionsOrDeletions.value.contain| &&
         Substring(where.additionsOrDeletions.value.contain[k], f.patch))
  {
    glob(where.path.matches, f.filename) &&
    (where.additionsOrDeletions.None? ||
     PatchContains(f.patch, where.additionsOrDeletions.value.contain))
  }

  /**
   * Some changed file has a name the glob accepts and, when
   * `additions_or_deletions` is present, that same file's patch holds a needle.
   */
  function HasFileMatch(changes: Changes, where: WhereClause, glob: Glob): (r: bool)
    ensures r <==> (exists i :: 0 <= i < |changes.changedFiles| &&
                      glob(where.path.matches, changes.changedFiles[i].filename) &&
                      (where.additionsOrDeletions.None? ||
                       exists k :: 0 <= k < |where.additionsOrDeletions.value.contain| &&
                         Substring(where.additionsOrDeletions.value.contain[k], changes.changedFiles[i].patch)))
  {
    AnySatisfies(changes.changedFiles, f => FileAccepted(f, where, glob))
  }

  /** Vacuous without an `author` key; otherwise the PR author must be known and listed. */
  function HasAuthorMatch(changes: Changes, where: WhereClause): (r: bool)
    ensures where.author.None? ==> r
    ensures where.author.Some? && changes.author.None? ==> !r
    ensures where.author.Some? && changes.author.Some? ==>
      (r <==> changes.author.value in where.author.value.any)
  {
    where.author.None? ||
    (changes.author.Some? && ArrayIncludes(where.author.value.any, changes.author.value))
  }

  /** Vacuous without a `labels` key; otherwise some PR label must be listed. */
  function HasLabelMatch(changes: Changes, where: WhereClause): (r: bool)
    ensures where.labels.None? ==> r
    ensures where.labels.Some? ==>
      (r <==> exists j :: 0 <= j < |changes.labels| && changes.labels[j] in where.labels.value.any)
  {
    where.labels.None? ||
    AnySatisfies(changes.labels, name => ArrayIncludes(where.labels.value.any, name))
  }

  /** `matches`: the clause holds of the change set. */
  function Matches(changes: Changes, where: WhereClause, glob: Glob): (r: bool)
    ensures r ==> (exists i :: 0 <= i < |changes.changedFiles| &&
                     FileAccepted(changes.changedFiles[i], where, glob))
    ensures r && where.author.Some? ==>
      changes.author.Some? && changes.author.value in where.author.value.any
    ensures r && where.labels.Some? ==>
      exists j :: 0 <= j < |changes.labels| && changes.labels[j] in where.labels.value.any
  {
    var hasFileMatch := HasFileMatch(changes, where, glob);
    var hasAuthorMatch := HasAuthorMatch(changes, where);
    var hasLabelMatch := HasLabelMatch(changes, where);
    hasFileMatch && hasAuthorMatch && hasLabelMatch
  }

  // ---------------------------------------------------------------------
  // Properties of the evaluator

  /** The full meaning of `matches`, spelled out over the inputs. */
  lemma MatchesExactly(changes: Changes, where: WhereClause, glob: Glob)
    ensures Matches(changes, where, glob) <==>
      (exists i :: 0 <= i < |changes.changedFiles| &&
         glob(where.path.matches, changes.changedFiles[i].filename) &&
         (where.additionsOrDeletions.None? ||
          exists k :: 0 <= k < |where.additionsOrDeletions.value.contain| &&
            Substring(where.additionsOrDeletions.value.contain[k], changes.changedFiles[i].patch))) &&
      (where.author.None? ||
       (changes.author.Some? && changes.author.value in where.author.value.any)) &&
      (where.labels.None? ||
       exists j :: 0 <= j < |changes.labels| && changes.labels[j] in where.labels.value.any)
  {
  }

  /** `patchContains` is false for no needles and true for an empty needle, even on an empty patch. */
  lemma PatchContainsEdges(patch: string, needles: seq<string>)
    ensures !PatchContains(patch, [])
    ensures "" in needles ==> PatchContains(patch, needles)
  {
  }

  /** A needle found only in the patch of a file the glob rejects does not help. */
  lemma NeedleMustBeInMatchedFile(changes: Changes, where: WhereClause, glob: Glob)
    requires where.additionsOrDeletions.Some?
    requires forall i :: 0 <= i < |changes.changedFiles| ==>
      (glob(where.path.matches, changes.changedFiles[i].filename) ==>
       !PatchContains(changes.changedFiles[i].patch, where.additionsOrDeletions.value.contain))
    ensures !Matches(changes, where, glob)
  {
  }

  /** Without `additions_or_deletions` the file match is the glob alone: patches are irrelevant. */
  lemma PatchesIrrelevantWithoutNeedles(c1: Changes, c2: Changes, where: WhereClause, glob: Glob)
    requires where.additionsOrDeletions.None?
    requires |c1.changedFiles| == |c2.changedFiles|
    requires forall i :: 0 <= i < |c1.changedFiles| ==>
      c1.changedFiles[i].filename == c2.changedFiles[i].filename
    requires c1.author == c2.author && c1.labels == c2.labels
    ensures Matches(c1, where, glob) == Matches(c2, where, glob)
  {
  }

  /** A pull request without changed files matches no clause. */
  lemma NoFilesNoMatch(changes: Changes, where: WhereClause, glob: Glob)
    requires changes.changedFiles == []
    ensures !Matches(changes, where, glob)
  {
  }

  /** A pull request without labels fails every clause that has a `labels` key. */
  lemma NoLabelsFailLabelClause(changes: Changes, where: WhereClause, glob: Glob)
    requires changes.labels == [] && where.labels.Some?
    ensures !Matches(changes, where, glob)
  {
  }

  /** Dropping an optional key never turns a match into a miss. */
  lemma DroppingKeysKeepsMatch(changes: Changes, where: WhereClause, glob: Glob)
    requires Matches(changes, where, glob)
    ensures Matches(changes, where.(additionsOrDeletions := None), glob)
    ensures Matches(changes, where.(author := None), glob)
    ensures Matches(changes, where.(labels := None), glob)
  {
  }

  // ---------------------------------------------------------------------
  // The fixture of the evaluator's unit tests

  function TestChanges(): Changes
  {
    Changes(
      [ChangedFile("foo.ts", "+ adding unsafe"),
       ChangedFile("bar.ts", ""),
       ChangedFile("baz/quiz.ts", "")],
      Some("pbrisbin"),
      ["feature", "v2"])
  }

  /** What the glob library answers for the patterns and names of the fixture. */
  predicate FixtureGlob(glob: Glob)
  {
    glob("baz/*.ts", "baz/quiz.ts") && !glob("baz/*.ts", "foo.ts") && !glob("baz/*.ts", "bar.ts") &&
    glob("foo.ts", "foo.ts") && !glob("foo.ts", "bar.ts") && !glob("foo.ts", "baz/quiz.ts") &&
    !glob("other.ts", "foo.ts") && !glob("other.ts", "bar.ts") && !glob("other.ts", "baz/quiz.ts")
  }

  function PathOnly(pattern: string): WhereClause
  {
    WhereClause(PathClause(pattern), None, None, None)
  }

  /** The clauses the unit tests expect to match. */
  lemma FixtureMatches(glob: Glob)
    requires FixtureGlob(glob)
    ensures Matches(TestChanges(), PathOnly("baz/*.ts"), glob)
    ensures Matches(TestChanges(), PathOnly("baz/*.ts").(author := Some(AnyClause(["dependabot", "pbrisbin"]))), glob)
    ensures Matches(TestChanges(), PathOnly("baz/*.ts").(labels := Some(AnyClause(["v2"]))), glob)
    ensures Matches(TestChanges(), PathOnly("foo.ts").(additionsOrDeletions := Some(ContainClause(["unsafe"]))), glob)
  {
    var files := TestChanges().changedFiles;
    assert glob("baz/*.ts", files[2].filename);
    assert TestChanges().labels[1] == "v2";
    assert OccursAt(files[0].patch, "unsafe", 9);
    assert Substring(["unsafe"][0], files[0].patch);
    assert glob("foo.ts", files[0].filename);
  }

  /** The clauses the unit tests expect to miss, the cross-file needle among them. */
  lemma FixtureMisses(glob: Glob)
    requires FixtureGlob(glob)
    ensures !Matches(TestChanges(), PathOnly("other.ts"), glob)
    ensures !Matches(TestChanges(), PathOnly("baz/*.ts").(author := Some(AnyClause(["dependabot"]))), glob)
    ensures !Matches(TestChanges(), PathOnly("baz/*.ts").(labels := Some(AnyClause(["bugfix"]))), glob)
    ensures !Matches(TestChanges(), PathOnly("foo.ts").(additionsOrDeletions := Some(ContainClause(["something else"]))), glob)
    ensures !Matches(TestChanges(), PathOnly("baz/*.ts").(additionsOrDeletions := Some(ContainClause(["unsafe"]))), glob)
  {
    var files := TestChanges().changedFiles;
    assert !Substring("something else", files[0].patch) by {
      forall i: nat ensures !OccursAt(files[0].patch, "something else", i) {
        if i + 14 <= 15 {
          assert files[0].patch[i] != "something else"[0];
        }
      }
    }
    assert !Substring("unsafe", files[2].patch);
  }
}
