/**
 * Rule selection in the action's entry point: the configured rules are
 * tried in the order `Object.entries` lists them (integer-like names first,
 * in ascending numeric order, then the other names in declaration order),
 * and the first whose clause matches supplies the
 * comment body and ends the search, and a comment is posted only when
 * that body is a non-empty string.
 */
module Commenter {
  import opened Wrappers
  import opened ChangeSet
  import opened Where

  /** One configured rule: where its body comes from, and its clause. */
  datatype Configuration = Configuration(
    body: Option<string>,
    bodyFile: Option<string>,
    bodyFileName: Option<string>,
    where: WhereClause)

  /**
   * Resolves the comment body of the selected rule from its name and
   * configuration (inline text or a fetched file); `None` stands for `null`.
   */
  type BodyResolver = (string, Configuration) -> Option<string>

  /** JavaScript truthiness of a `string | null`. */
  predicate Truthy(body: Option<string>)
  {
    body.Some? && body.value != ""
  }

  /** The position of the first rule, in the given order, whose clause matches. */
  function FirstMatch(changes: Changes, rules: seq<(string, Configuration)>, glob: Glob): (r: Option<nat>)
    ensures r.Some? ==>
      r.value < |rules| && Matches(changes, rules[r.value].1.where, glob) &&
      forall j :: 0 <= j < r.value ==> !Matches(changes, rules[j].1.where, glob)
    ensures r.None? ==>
      forall j :: 0 <= j < |rules| ==> !Matches(changes, rules[j].1.where, glob)
  {
    if rules == [] then None
    else if Matches(changes, rules[0].1.where, glob) then Some(0)
    else
      match FirstMatch(changes, rules[1..], glob)
      case None => None
      case Some(k) => Some(k + 1)
  }

  /**
   * The selection loop and the post decision of `run`. `comment` is the
   * body handed to the comment-posting call (`None`: no call is made);
   * `evaluated` lists the names of the rules whose clauses were evaluated,
   * in the order they were evaluated.
   */
  method Run(changes: Changes, rules: seq<(string, Configuration)>, glob: Glob, resolve: BodyResolver)
    returns (comment: Option<string>, ghost evaluated: seq<string>)
    ensures FirstMatch(changes, rules, glob).None? ==>
      comment.None? &&
      |evaluated| == |rules| && forall k :: 0 <= k < |rules| ==> evaluated[k] == rules[k].0
    ensures FirstMatch(changes, rules, glob).Some? ==>
      var i := FirstMatch(changes, rules, glob).value;
      var body := resolve(rules[i].0, rules[i].1);
      |evaluated| == i + 1 && (forall k :: 0 <= k <= i ==> evaluated[k] == rules[k].0) &&
      comment == (if Truthy(body) then body else None)
    ensures comment.Some? ==> comment.value != ""
  {
    var body: Option<string> := None;
    ghost var selected: Option<nat> := None;
    evaluated := [];
    var i := 0;
    while i < |rules|
      invariant 0 <= i <= |rules|
      invariant |evaluated| == i && forall k :: 0 <= k < i ==> evaluated[k] == rules[k].0
      invariant body.None? && selected.None?
      invariant forall j :: 0 <= j < i ==> !Matches(changes, rules[j].1.where, glob)
    {
      var (name, config) := rules[i];
      evaluated := evaluated + [name];
      if Matches(changes, config.where, glob) {
        body := resolve(name, config);
        selected := Some(i);
        break; // first match wins
      }
      i := i + 1;
    }
    assert selected == FirstMatch(changes, rules, glob);
    if Truthy(body) {
      comment := body;
    } else {
      comment := None;
    }
  }

  /**
   * Rules declared after the selected one are never consulted, and rules
   * that all miss only shift the position of the first match.
   */
  lemma FirstMatchOfConcatenation(changes: Changes, rules: seq<(string, Configuration)>,
                                  more: seq<(string, Configuration)>, glob: Glob)
    ensures FirstMatch(changes, rules, glob).Some? ==>
      FirstMatch(changes, rules + more, glob) == FirstMatch(changes, rules, glob)
    ensures FirstMatch(changes, rules, glob).None? ==>
      FirstMatch(changes, rules + more, glob) ==
        match FirstMatch(changes, more, glob)
        case None => None
        case Some(k) => Some(|rules| + k)
  {
    var all := rules + more;
    assert forall j :: 0 <= j < |rules| ==> all[j] == rules[j];
    assert forall j :: 0 <= j < |more| ==> all[|rules| + j] == more[j];
  }
}
