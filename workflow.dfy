/**
 * The syntax of a CI workflow command as a runner reads it from one console
 * line:  `::name key=value,key=value::data`.  The command part ends at the
 * first `::` after the leading one, the name ends at the first space, the
 * properties are separated by `,` and each splits at its first `=`; an entry
 * without `=` (an empty one included) is dropped.  This is the reader the
 * reporter's annotation lines are written for.
 */
module WorkflowCommands {
  import opened Wrappers

  datatype Command = Command(name: string, properties: seq<(string, string)>, data: string)

  /** The position of the first `::` in `s`. */
  function FirstDoubleColon(s: string): (r: Option<nat>)
    ensures r.Some? ==> r.value + 2 <= |s| && s[r.value] == ':' && s[r.value + 1] == ':'
  {
    if |s| < 2 then None
    else if s[0] == ':' && s[1] == ':' then Some(0)
    else match FirstDoubleColon(s[1..])
      case None => None
      case Some(k) => Some(k + 1)
  }

  /** `s` cut at the first occurrence of `c`, which neither part keeps. */
  function SplitAtFirst(s: string, c: char): (r: Option<(string, string)>)
    ensures r.Some? ==> s == r.value.0 + [c] + r.value.1 && c !in r.value.0
    ensures r.None? ==> c !in s
  {
    if s == [] then None
    else if s[0] == c then Some(([], s[1..]))
    else match SplitAtFirst(s[1..], c)
      case None => None
      case Some(p) => Some(([s[0]] + p.0, p.1))
  }

  /** The pieces of `s` between occurrences of `c`, in order. */
  function SplitOn(s: string, c: char): (parts: seq<string>)
    ensures |parts| >= 1
    decreases |s|
  {
    match SplitAtFirst(s, c)
    case None => [s]
    case Some(p) => [p.0] + SplitOn(p.1, c)
  }

  /** The `key=value` entries of a property list; entries without `=` are dropped. */
  function Properties(entries: seq<string>): seq<(string, string)> {
    if entries == [] then []
    else
      (match SplitAtFirst(entries[0], '=')
       case None => []
       case Some(kv) => [kv])
      + Properties(entries[1..])
  }

  /** The command a runner reads from `line`, or None when it is not one. */
  function ParseCommand(line: string): Option<Command> {
    if |line| < 2 || line[..2] != "::" then None
    else
      var rest := line[2..];
      match FirstDoubleColon(rest)
      case None => None
      case Some(k) =>
        var info, data := rest[..k], rest[k + 2..];
        match SplitAtFirst(info, ' ')
        case None => Some(Command(info, [], data))
        case Some(p) => Some(Command(p.0, Properties(SplitOn(p.1, ',')), data))
  }

  /** No `:` in `s` is directly followed by another `:`. */
  predicate NoDoubleColon(s: string) {
    forall i | 0 <= i < |s| - 1 :: s[i] != ':' || s[i + 1] != ':'
  }

  /** Text without `::` whose two sides do not meet in `::` has none either. */
  lemma NoDoubleColonConcat(a: string, b: string)
    requires NoDoubleColon(a) && NoDoubleColon(b)
    requires a == [] || b == [] || a[|a| - 1] != ':' || b[0] != ':'
    ensures NoDoubleColon(a + b)
  {
    var s := a + b;
    forall i | 0 <= i < |s| - 1
      ensures s[i] != ':' || s[i + 1] != ':'
    {
      if i + 1 < |a| {
        assert s[i] == a[i] && s[i + 1] == a[i + 1];
      } else if i >= |a| {
        assert s[i] == b[i - |a|] && s[i + 1] == b[i - |a| + 1];
      }
    }
  }

  /**
   * The first `::` after a text without `::` that does not end in `:` is
   * the one right after it.
   */
  lemma {:induction false} FirstDoubleColonAt(a: string, b: string)
    requires NoDoubleColon(a) && (a == [] || a[|a| - 1] != ':')
    ensures FirstDoubleColon(a + "::" + b) == Some(|a|)
  {
    if a != [] {
      var s := a + "::" + b;
      assert s[0] == a[0];
      if |a| >= 2 {
        assert s[1] == a[1];
      }
      assert s[1..] == a[1..] + "::" + b;
      assert NoDoubleColon(a[1..]) by {
        forall i | 0 <= i < |a[1..]| - 1
          ensures a[1..][i] != ':' || a[1..][i + 1] != ':'
        {
          assert a[1..][i] == a[i + 1] && a[1..][i + 1] == a[i + 2];
        }
      }
      FirstDoubleColonAt(a[1..], b);
    }
  }

  lemma {:induction false} SplitAtFirstAt(a: string, c: char, b: string)
    requires c !in a
    ensures SplitAtFirst(a + [c] + b, c) == Some((a, b))
  {
    if a != [] {
      assert (a + [c] + b)[1..] == a[1..] + [c] + b;
      SplitAtFirstAt(a[1..], c, b);
      assert [a[0]] + a[1..] == a;
    }
  }

  lemma {:induction false} SplitOnNone(a: string, c: char)
    requires c !in a
    ensures SplitOn(a, c) == [a]
  {
  }

  lemma {:induction false} SplitOnAt(a: string, c: char, b: string)
    requires c !in a
    ensures SplitOn(a + [c] + b, c) == [a] + SplitOn(b, c)
  {
    SplitAtFirstAt(a, c, b);
  }

  /**
   * A line in the command syntax reads back as its name, its properties and
   * its data, provided the name has no space and no colon, and the properties
   * hold no `::` and do not end in `:`.
   */
  lemma {:induction false} ParseCommandFormat(name: string, props: string, data: string)
    requires ':' !in name && ' ' !in name
    requires NoDoubleColon(props) && (props == [] || props[|props| - 1] != ':')
    ensures ParseCommand("::" + name + " " + props + "::" + data)
      == Some(Command(name, Properties(SplitOn(props, ',')), data))
  {
    var info := name + [' '] + props;
    assert NoDoubleColon(name + [' ']);
    NoDoubleColonConcat(name + [' '], props);
    var rest := info + "::" + data;
    var line := "::" + name + " " + props + "::" + data;
    assert line == "::" + rest;
    assert line[..2] == "::" && line[2..] == rest;
    FirstDoubleColonAt(info, data);
    assert rest[..|info|] == info;
    assert rest[|info| + 2..] == data;
    SplitAtFirstAt(name, ' ', props);
  }
}
