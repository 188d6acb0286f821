/** The string operations the forms apply to user input: Python's `str.strip()`
    with no argument, `str.split(',')`, and the comma join that a CSV line is. */
module Text {

  /** Python's `str.isspace` for one character: the characters `strip()` removes. */
  predicate IsSpace(c: char)
  {
    var n := c as int;
    n == 0x20 || 0x09 <= n <= 0x0D || 0x1C <= n <= 0x1F || n == 0x85 || n == 0xA0 ||
    n == 0x1680 || 0x2000 <= n <= 0x200A || n == 0x2028 || n == 0x2029 ||
    n == 0x202F || n == 0x205F || n == 0x3000
  }

  predicate IsDigit(c: char)
  {
    '0' <= c <= '9'
  }

  predicate IsDigits(s: string)
  {
    forall k :: 0 <= k < |s| ==> IsDigit(s[k])
  }

  /** `r` is `s` with the whitespace runs `s[..i]` and `s[j..]` cut off. */
  predicate TrimmedOf(r: string, s: string, i: nat, j: nat)
  {
    i <= j <= |s| && r == s[i..j] &&
    (forall k :: 0 <= k < i ==> IsSpace(s[k])) &&
    (forall k :: j <= k < |s| ==> IsSpace(s[k]))
  }

  /** Cutting one more leading whitespace character keeps `r` a trimming of `s`. */
  lemma TrimmedDropFront(r: string, s: string)
    requires s != [] && IsSpace(s[0])
    requires exists i: nat, j: nat :: TrimmedOf(r, s[1..], i, j)
    ensures exists i: nat, j: nat :: TrimmedOf(r, s, i, j)
  {
    var i: nat, j: nat :| TrimmedOf(r, s[1..], i, j);
    assert s[1..][i..j] == s[i + 1..j + 1];
    forall k | 0 <= k < i + 1 ensures IsSpace(s[k]) {
      if k > 0 { assert s[k] == s[1..][k - 1]; }
    }
    forall k | j + 1 <= k < |s| ensures IsSpace(s[k]) {
      assert s[k] == s[1..][k - 1];
    }
    assert TrimmedOf(r, s, i + 1, j + 1);
  }

  /** Cutting one more trailing whitespace character keeps `r` a trimming. */
  lemma TrimmedDropBack(r: string, init: string, c: char)
    requires IsSpace(c)
    requires exists i: nat, j: nat :: TrimmedOf(r, init, i, j)
    ensures exists i: nat, j: nat :: TrimmedOf(r, init + [c], i, j)
  {
    var s := init + [c];
    var i: nat, j: nat :| TrimmedOf(r, init, i, j);
    assert init[i..j] == s[i..j];
    forall k | j <= k < |s| ensures IsSpace(s[k]) {
      if k < |init| { assert s[k] == init[k]; }
    }
    assert TrimmedOf(r, s, i, j);
  }

  /** Python's `s.strip()`: whitespace is removed from both ends; the result
      neither starts nor ends with whitespace, and is empty exactly when `s` is
      whitespace only. `StripTrims` shows it is `s` with its whitespace ends cut. */
  function Strip(s: string): (r: string)
    ensures |r| <= |s|
    ensures r != [] ==> !IsSpace(r[0]) && !IsSpace(r[|r| - 1])
    ensures r == [] <==> forall k :: 0 <= k < |s| ==> IsSpace(s[k])
    decreases |s|
  {
    if s == [] then s
    else if IsSpace(s[0]) then
      var r := Strip(s[1..]);
      assert r == [] ==> forall k :: 0 <= k < |s| ==> IsSpace(s[k]) by {
        if r == [] {
          forall k | 0 <= k < |s| ensures IsSpace(s[k]) {
            if k > 0 { assert s[k] == s[1..][k - 1]; }
          }
        }
      }
      r
    else if IsSpace(s[|s| - 1]) then
      var r := Strip(s[..|s| - 1]);
      assert r != [] by {
        assert s[..|s| - 1][0] == s[0];
      }
      r
    else s
  }

  /** `strip()` keeps a contiguous middle part of `s` and cuts off only
      whitespace before and after it. */
  lemma {:induction false} StripTrims(s: string)
    ensures exists i: nat, j: nat :: TrimmedOf(Strip(s), s, i, j)
    decreases |s|
  {
    if s == [] {
      assert TrimmedOf(Strip(s), s, 0, 0);
    } else if IsSpace(s[0]) {
      StripTrims(s[1..]);
      TrimmedDropFront(Strip(s), s);
    } else if IsSpace(s[|s| - 1]) {
      StripTrims(s[..|s| - 1]);
      TrimmedDropBack(Strip(s), s[..|s| - 1], s[|s| - 1]);
      assert s[..|s| - 1] + [s[|s| - 1]] == s;
    } else {
      assert TrimmedOf(Strip(s), s, 0, |s|);
    }
  }

  /** A string with no whitespace at either end is left alone by `strip()`. */
  lemma StripKeeps(s: string)
    requires s != [] ==> !IsSpace(s[0]) && !IsSpace(s[|s| - 1])
    ensures Strip(s) == s
  {
  }

  /** Digit strings (the generated codes) survive `strip()` and hold no comma. */
  lemma DigitsAreBare(s: string)
    requires IsDigits(s)
    ensures Strip(s) == s
    ensures ',' !in s
  {
    if s != [] {
      assert IsDigit(s[0]) && IsDigit(s[|s| - 1]);
      StripKeeps(s);
    }
  }

  /** Fields joined with commas: the inverse of `Split`. */
  function Join(fields: seq<string>): (line: string)
    requires |fields| >= 1
    decreases |fields|
  {
    if |fields| == 1 then fields[0]
    else Join(fields[..|fields| - 1]) + "," + fields[|fields| - 1]
  }

  /** Python's `s.split(',')`: at least one field, and no field holds a comma. */
  function Split(s: string): (fields: seq<string>)
    ensures |fields| >= 1
    ensures forall k :: 0 <= k < |fields| ==> ',' !in fields[k]
    decreases |s|
  {
    if s == [] then [""]
    else
      var init := Split(s[..|s| - 1]);
      var c := s[|s| - 1];
      if c == ',' then init + [""]
      else init[..|init| - 1] + [init[|init| - 1] + [c]]
  }

  /** An empty last field adds a trailing comma to the join. */
  lemma JoinAppendEmpty(fields: seq<string>)
    requires |fields| >= 1
    ensures Join(fields + [""]) == Join(fields) + ","
  {
    assert (fields + [""])[..|fields|] == fields;
  }

  /** Extending the last field by one character extends the join by it. */
  lemma JoinExtendLast(fields: seq<string>, c: char)
    requires |fields| >= 1
    ensures Join(fields[..|fields| - 1] + [fields[|fields| - 1] + [c]]) == Join(fields) + [c]
  {
    var n := |fields|;
    var extended := fields[..n - 1] + [fields[n - 1] + [c]];
    if n > 1 {
      assert extended[..n - 1] == fields[..n - 1];
    }
  }

  /** Joining the fields of a split with commas gives the line back. */
  lemma {:induction false} JoinSplit(s: string)
    ensures Join(Split(s)) == s
    decreases |s|
  {
    if s != [] {
      var shorter := s[..|s| - 1];
      var c := s[|s| - 1];
      JoinSplit(shorter);
      assert shorter + [c] == s;
      if c == ',' {
        JoinAppendEmpty(Split(shorter));
      } else {
        JoinExtendLast(Split(shorter), c);
      }
    }
  }

  /** Appending a comma and a comma-free tail to a line adds exactly one field. */
  lemma {:induction false} SplitAppendField(a: string, b: string)
    requires ',' !in b
    ensures Split(a + "," + b) == Split(a) + [b]
    decreases |b|
  {
    var line := a + "," + b;
    if b == [] {
      assert line[..|a|] == a;
    } else {
      var b' := b[..|b| - 1];
      var c := b[|b| - 1];
      assert c in b;
      var shorter := a + "," + b';
      assert line[..|line| - 1] == shorter;
      assert line[|line| - 1] == c;
      SplitAppendField(a, b');
      var init := Split(shorter);
      assert init == Split(a) + [b'];
      assert init[..|init| - 1] == Split(a);
      assert init[|init| - 1] == b';
      assert b' + [c] == b;
      assert Split(line) == init[..|init| - 1] + [init[|init| - 1] + [c]];
    }
  }

  /** A comma-free string is a single field. */
  lemma {:induction false} SplitSingle(a: string)
    requires ',' !in a
    ensures Split(a) == [a]
    decreases |a|
  {
    if a != [] {
      var a' := a[..|a| - 1];
      assert a[|a| - 1] != ',' by { assert a[|a| - 1] in a; }
      SplitSingle(a');
      assert a' + [a[|a| - 1]] == a;
    }
  }

  /** Splitting a join of comma-free fields gives the fields back. */
  lemma {:induction false} SplitJoin(fields: seq<string>)
    requires |fields| >= 1
    requires forall k :: 0 <= k < |fields| ==> ',' !in fields[k]
    ensures Split(Join(fields)) == fields
    decreases |fields|
  {
    if |fields| == 1 {
      SplitSingle(fields[0]);
    } else {
      var init := fields[..|fields| - 1];
      SplitJoin(init);
      SplitAppendField(Join(init), fields[|fields| - 1]);
      assert init + [fields[|fields| - 1]] == fields;
    }
  }

  /** A join of two or more fields contains a comma. */
  lemma JoinHasComma(fields: seq<string>)
    requires |fields| >= 2
    ensures ',' in Join(fields)
  {
    var line := Join(fields);
    var init := Join(fields[..|fields| - 1]);
    assert line[|init|] == ',';
  }
}
