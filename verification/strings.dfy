/** The JavaScript string operations the fallback service and the tasks
    controller rely on: `includes`, `startsWith`, `join` and `split`. */
module Strings {

  /** `t` occurs in `s` starting at index `i`. */
  ghost predicate OccursAt(s: string, t: string, i: nat) {
    i + |t| <= |s| && s[i..i + |t|] == t
  }

  lemma {:induction false} OccursAtShift(s: string, t: string, i: nat)
    requires |s| > 0
    ensures OccursAt(s[1..], t, i) <==> OccursAt(s, t, i + 1)
  {
    if i + |t| <= |s[1..]| {
      assert s[1..][i..i + |t|] == s[i + 1..i + 1 + |t|];
    }
  }

  /** `s.includes(t)`: some occurrence of `t` inside `s` (the empty string
      occurs in every string). */
  function Contains(s: string, t: string): (b: bool)
    ensures b <==> exists i: nat :: OccursAt(s, t, i)
    decreases |s|
  {
    if |t| > |s| then
      assert forall i: nat :: !OccursAt(s, t, i);
      false
    else if s[..|t|] == t then
      assert OccursAt(s, t, 0);
      true
    else
      var b := Contains(s[1..], t);
      assert b ==> exists i: nat :: OccursAt(s, t, i) by {
        if b {
          var i: nat :| OccursAt(s[1..], t, i);
          OccursAtShift(s, t, i);
        }
      }
      assert (exists i: nat :: OccursAt(s, t, i)) ==> b by {
        if exists i: nat :: OccursAt(s, t, i) {
          var i: nat :| OccursAt(s, t, i);
          assert i != 0;
          OccursAtShift(s, t, i - 1);
        }
      }
      b
  }

  /** `s.startsWith(t)`; a prefix is in particular an occurrence. */
  predicate StartsWith(s: string, t: string)
    ensures StartsWith(s, t) ==> Contains(s, t)
  {
    if |t| <= |s| && s[..|t|] == t then
      assert OccursAt(s, t, 0);
      true
    else
      false
  }

  /** `parts.join(sep)`: no parts give the empty string, and otherwise the
      result opens with the first part. */
  function Join(parts: seq<string>, sep: string): (r: string)
    ensures parts == [] ==> r == ""
    ensures |parts| >= 1 ==> StartsWith(r, parts[0])
    ensures |parts| == 1 ==> r == parts[0]
    decreases |parts|
  {
    if |parts| == 0 then ""
    else if |parts| == 1 then parts[0]
    else parts[0] + sep + Join(parts[1..], sep)
  }

  lemma JoinCons(p: string, rest: seq<string>, sep: string)
    requires |rest| >= 1
    ensures Join([p] + rest, sep) == p + sep + Join(rest, sep)
  {
    assert ([p] + rest)[1..] == rest;
  }

  /** Joining one more part appends the separator and that part: with
      `Join([], sep) == ""` and `Join([p], sep) == p` this fixes the join. */
  lemma {:induction false} JoinSnoc(parts: seq<string>, p: string, sep: string)
    requires parts != []
    ensures Join(parts + [p], sep) == Join(parts, sep) + sep + p
    decreases |parts|
  {
    var whole := parts + [p];
    if |parts| == 1 {
      assert whole[1..] == [p];
    } else {
      assert whole[1..] == parts[1..] + [p];
      JoinSnoc(parts[1..], p, sep);
      assert Join(whole, sep) == parts[0] + sep + (Join(parts[1..], sep) + sep + p);
    }
  }

  /** `s.split([sep])` with no limit: the pieces between the separators,
      empty pieces included; the empty string splits into one empty piece. */
  function Split(s: string, sep: char): (parts: seq<string>)
    ensures |parts| >= 1
    ensures forall k :: 0 <= k < |parts| ==> sep !in parts[k]
    ensures Join(parts, [sep]) == s
    decreases |s|
  {
    if |s| == 0 then [""]
    else
      var rest := Split(s[1..], sep);
      if s[0] == sep then
        JoinCons("", rest, [sep]);
        assert [s[0]] + s[1..] == s;
        [""] + rest
      else
        var parts := [[s[0]] + rest[0]] + rest[1..];
        assert parts[1..] == rest[1..];
        if |rest| == 1 then
          assert [s[0]] + s[1..] == s;
          parts
        else
          JoinCons(rest[0], rest[1..], [sep]);
          assert [rest[0]] + rest[1..] == rest;
          assert [s[0]] + s[1..] == s;
          parts
  }

  /** An occurrence survives appending on either side. */
  lemma ContainsInConcat(a: string, b: string, t: string)
    ensures Contains(a, t) ==> Contains(a + b, t)
    ensures Contains(b, t) ==> Contains(a + b, t)
  {
    if Contains(a, t) {
      var i: nat :| OccursAt(a, t, i);
      assert (a + b)[i..i + |t|] == a[i..i + |t|];
      assert OccursAt(a + b, t, i);
    }
    if Contains(b, t) {
      var i: nat :| OccursAt(b, t, i);
      assert (a + b)[|a| + i..|a| + i + |t|] == b[i..i + |t|];
      assert OccursAt(a + b, t, |a| + i);
    }
  }

  /** Every part occurs in the joined string. */
  lemma {:induction false} JoinContainsParts(parts: seq<string>, sep: string, k: int)
    requires 0 <= k < |parts|
    ensures Contains(Join(parts, sep), parts[k])
    decreases |parts|
  {
    if |parts| == 1 {
      assert OccursAt(parts[0], parts[0], 0);
    } else if k == 0 {
      assert OccursAt(parts[0], parts[0], 0);
      ContainsInConcat(parts[0], sep + Join(parts[1..], sep), parts[0]);
      assert parts[0] + sep + Join(parts[1..], sep) == parts[0] + (sep + Join(parts[1..], sep));
    } else {
      JoinContainsParts(parts[1..], sep, k - 1);
      ContainsInConcat(parts[0] + sep, Join(parts[1..], sep), parts[k]);
    }
  }

  /** A string cannot contain a string with a character it lacks. */
  lemma AbsentCharRulesOut(s: string, t: string, c: char)
    requires c in t && c !in s
    ensures !Contains(s, t)
  {
  }
}
