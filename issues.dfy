/**
 * The outcome of a schema check: the list of issues found, each with the path
 * of the field it belongs to and its message. An input is accepted exactly when
 * the list is empty. Object schemas check their keys in declaration order and
 * collect every issue instead of stopping at the first.
 */
module Issues {

  datatype Issue = Issue(path: seq<string>, message: string)

  /** No issue when `ok`, otherwise one issue with `message` at the value itself. */
  function Check(ok: bool, message: string): seq<Issue>
  {
    if ok then [] else [Issue([], message)]
  }

  /** The issues of the value stored under `key`, reported below `key`. */
  function At(key: string, issues: seq<Issue>): (r: seq<Issue>)
    ensures |r| == |issues|
    ensures forall i :: 0 <= i < |r| ==> r[i] == Issue([key] + issues[i].path, issues[i].message)
  {
    seq(|issues|, i requires 0 <= i < |issues| => Issue([key] + issues[i].path, issues[i].message))
  }

  /** A single check under `key` reports its one issue at path [key]. */
  lemma AtCheck(key: string, ok: bool, message: string)
    ensures At(key, Check(ok, message)) == if ok then [] else [Issue([key], message)]
  {
    if !ok {
      assert [key] + [] == [key];
    }
  }

  /** An issue found under `key` is reported with `key` in front of its path. */
  lemma AtKeeps(key: string, issues: seq<Issue>, x: Issue)
    requires x in issues
    ensures Issue([key] + x.path, x.message) in At(key, issues)
  {
    var i :| 0 <= i < |issues| && issues[i] == x;
    assert At(key, issues)[i] == Issue([key] + x.path, x.message);
  }

  /** No issue in the list carries `message`. */
  predicate Lacks(issues: seq<Issue>, message: string)
  {
    forall x :: x in issues ==> x.message != message
  }

  /** Every issue in the list that carries `message` is reported at `path`. */
  predicate OnlyAt(issues: seq<Issue>, message: string, path: seq<string>)
  {
    forall x :: x in issues && x.message == message ==> x.path == path
  }

  /** Reporting below a key keeps the messages. */
  lemma AtLacks(key: string, issues: seq<Issue>, message: string)
    requires Lacks(issues, message)
    ensures Lacks(At(key, issues), message)
  {
    forall x | x in At(key, issues) ensures x.message != message {
      var i :| 0 <= i < |At(key, issues)| && At(key, issues)[i] == x;
      assert issues[i] in issues;
    }
  }

  /** Two lists that lack a message lack it together. */
  lemma LacksConcat(a: seq<Issue>, b: seq<Issue>, message: string)
    requires Lacks(a, message) && Lacks(b, message)
    ensures Lacks(a + b, message)
  {
  }

  /** A list that lacks a message reports it at any path. */
  lemma LacksOnlyAt(issues: seq<Issue>, message: string, path: seq<string>)
    requires Lacks(issues, message)
    ensures OnlyAt(issues, message, path)
  {
  }

  /** Two lists that report a message at one path report it there together. */
  lemma OnlyAtConcat(a: seq<Issue>, b: seq<Issue>, message: string, path: seq<string>)
    requires OnlyAt(a, message, path) && OnlyAt(b, message, path)
    ensures OnlyAt(a + b, message, path)
  {
  }

  /** Reporting below a key puts the key in front of the one path a message is reported at. */
  lemma AtOnlyAt(key: string, issues: seq<Issue>, message: string, path: seq<string>)
    requires OnlyAt(issues, message, path)
    ensures OnlyAt(At(key, issues), message, [key] + path)
  {
    forall x | x in At(key, issues) && x.message == message ensures x.path == [key] + path {
      var i :| 0 <= i < |At(key, issues)| && At(key, issues)[i] == x;
      assert issues[i] in issues;
    }
  }

  /** The options of an enumeration as the default enum message lists them: 'a' | 'b'. */
  function QuotedOptions(options: seq<string>): string
    decreases |options|
  {
    if options == [] then ""
    else if |options| == 1 then "'" + options[0] + "'"
    else "'" + options[0] + "' | " + QuotedOptions(options[1..])
  }

  /** The default issue of an enumeration schema for a value outside its options. */
  function EnumCheck(options: seq<string>, value: string): seq<Issue>
  {
    Check(value in options,
          "Invalid enum value. Expected " + QuotedOptions(options) + ", received '" + value + "'")
  }

  /** The default enum issue starts with "Invalid", so it never carries a message that does not. */
  lemma EnumLacks(options: seq<string>, value: string, message: string)
    requires |message| > 0 && message[0] != 'I'
    ensures Lacks(EnumCheck(options, value), message)
  {
    var m := "Invalid enum value. Expected " + QuotedOptions(options) + ", received '" + value + "'";
    assert m[0] == 'I';
  }
}
