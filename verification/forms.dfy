/**
 * What the zod schemas of lib/forms have in common. A schema is modelled as the
 * ordered list of its checks: each check has the path of the field it belongs to,
 * whether the input passes it, and the message the schema gives for it (`None`
 * where the schema relies on zod's built-in message). Parsing succeeds exactly
 * when no check fails, and otherwise reports one issue per failing check, in
 * order. String lengths are counted in characters.
 */
module Forms {
  import opened Wrappers

  /** One check of a schema, already evaluated on the input. */
  datatype Rule = Rule(path: string, ok: bool, message: Option<string>)

  /** One reported validation issue. */
  datatype Issue = Issue(path: string, message: Option<string>)

  /** `.min(n, message)` on a string. */
  function MinLength(path: string, s: string, n: int, message: string): (r: Rule)
    ensures r.path == path && r.message == Some(message)
    ensures r.ok <==> |s| >= n
  {
    Rule(path, |s| >= n, Some(message))
  }

  /** `.max(n, message)` on a string. */
  function MaxLength(path: string, s: string, n: int, message: string): (r: Rule)
    ensures r.path == path && r.message == Some(message)
    ensures r.ok <==> |s| <= n
  {
    Rule(path, |s| <= n, Some(message))
  }

  /** The issues of the failing rules, in rule order. */
  function Issues(rules: seq<Rule>): (r: seq<Issue>)
    ensures |r| <= |rules|
    ensures |r| == 0 <==> forall i :: 0 <= i < |rules| ==> rules[i].ok
    ensures forall k :: 0 <= k < |r| ==> exists i :: 0 <= i < |rules| && !rules[i].ok && r[k] == Issue(rules[i].path, rules[i].message)
    ensures forall i :: 0 <= i < |rules| && !rules[i].ok ==> Issue(rules[i].path, rules[i].message) in r
    decreases |rules|
  {
    if |rules| == 0 then []
    else
      var rest := Issues(rules[1..]);
      assert forall i :: 0 < i < |rules| ==> rules[i] == rules[1..][i - 1];
      if rules[0].ok then rest
      else
        var r := [Issue(rules[0].path, rules[0].message)] + rest;
        assert forall k :: 0 < k < |r| ==> r[k] == rest[k - 1];
        r
  }

  /** Issues come out in rule order: a rule added last reports, if it fails, after all the others. */
  lemma {:induction false} IssuesAppend(rules: seq<Rule>, x: Rule)
    ensures Issues(rules + [x]) == Issues(rules) + (if x.ok then [] else [Issue(x.path, x.message)])
    decreases |rules|
  {
    if |rules| == 0 {
      assert rules + [x] == [x];
      assert [x][1..] == [];
    } else {
      var head := if rules[0].ok then [] else [Issue(rules[0].path, rules[0].message)];
      var last := if x.ok then [] else [Issue(x.path, x.message)];
      assert (rules + [x])[0] == rules[0];
      assert (rules + [x])[1..] == rules[1..] + [x];
      calc {
        Issues(rules + [x]);
        { IssuesCons(rules + [x]); }
        head + Issues(rules[1..] + [x]);
        { IssuesAppend(rules[1..], x); }
        head + (Issues(rules[1..]) + last);
        (head + Issues(rules[1..])) + last;
        { IssuesCons(rules); }
        Issues(rules) + last;
      }
    }
  }

  /** The issues of a non-empty list: the first rule's, if it fails, then the rest's. */
  lemma IssuesCons(rules: seq<Rule>)
    requires |rules| > 0
    ensures Issues(rules) == (if rules[0].ok then [] else [Issue(rules[0].path, rules[0].message)]) + Issues(rules[1..])
  {
  }

  /** Some issue is reported for `path`. */
  predicate HasIssueAt(issues: seq<Issue>, path: string)
  {
    exists k :: 0 <= k < |issues| && issues[k].path == path
  }

  /** An issue is reported for a path exactly when one of that path's rules fails. */
  lemma IssueAtIffRuleFails(rules: seq<Rule>, path: string)
    ensures HasIssueAt(Issues(rules), path) <==> exists i :: 0 <= i < |rules| && rules[i].path == path && !rules[i].ok
  {
    var r := Issues(rules);
    if exists i :: 0 <= i < |rules| && rules[i].path == path && !rules[i].ok {
      var i :| 0 <= i < |rules| && rules[i].path == path && !rules[i].ok;
      var k :| 0 <= k < |r| && r[k] == Issue(rules[i].path, rules[i].message);
    }
  }

  /** When a single rule carries `path`, an issue is reported there exactly when that rule fails. */
  lemma OnlyRuleAt(rules: seq<Rule>, k: int, path: string)
    requires 0 <= k < |rules| && rules[k].path == path
    requires forall i :: 0 <= i < |rules| && i != k ==> rules[i].path != path
    ensures HasIssueAt(Issues(rules), path) <==> !rules[k].ok
  {
    IssueAtIffRuleFails(rules, path);
  }

  /** A parse: the parsed value when every rule passes, the issues otherwise. */
  function Parse<T>(rules: seq<Rule>, parsed: T): (r: Result<T, seq<Issue>>)
    ensures r.Success? <==> forall i :: 0 <= i < |rules| ==> rules[i].ok
    ensures r.Success? ==> r.value == parsed
    ensures r.Failure? ==> |r.error| > 0 && r.error == Issues(rules)
  {
    var issues := Issues(rules);
    if |issues| == 0 then Success(parsed) else Failure(issues)
  }

  predicate IsDigit(c: char)
  {
    '0' <= c <= '9'
  }
}
