/**
 * The pull request's change set, as assembled by the caller from the
 * hosting platform's API: the changed files with their raw patches, the
 * author's login (absent when the platform reports no user) and the label
 * names. A file the platform reports without a patch carries the empty
 * string, so `patch` is always a string.
 */
module ChangeSet {
  import opened Wrappers

  datatype ChangedFile = ChangedFile(filename: string, patch: string)

  datatype Changes = Changes(changedFiles: seq<ChangedFile>, author: Option<string>, labels: seq<string>)
}
