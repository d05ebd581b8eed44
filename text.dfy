/** The Python string operations the column renaming relies on:
    `endswith("_id")`, `find("_id")`, slicing `s[:end]` with a possibly
    negative bound, and `replace("_id", "_name")`. */
module Text {

  /** `s.endswith(suffix)`. */
  predicate EndsWith(s: string, suffix: string) {
    |suffix| <= |s| && s[|s| - |suffix|..] == suffix
  }

  /** `"_id"` occurs in `s` starting at index `i`. */
  predicate IdAt(s: string, i: int) {
    0 <= i && i + 3 <= |s| && s[i..i + 3] == "_id"
  }

  /** `"_id" in s`. */
  predicate ContainsId(s: string) {
    exists i :: 0 <= i < |s| && IdAt(s, i)
  }

  /** `s.find("_id", i)`: the first occurrence at or after `i`, or -1. */
  function FindIdFrom(s: string, i: nat): (r: int)
    ensures r == -1 || (i <= r && IdAt(s, r))
    ensures forall j :: i <= j && (r == -1 || j < r) ==> !IdAt(s, j)
    decreases |s| - i
  {
    if i + 3 > |s| then -1
    else if IdAt(s, i) then i
    else FindIdFrom(s, i + 1)
  }

  /** `s.find("_id")`. */
  function FindId(s: string): (r: int)
    ensures r == -1 <==> !ContainsId(s)
    ensures r != -1 ==> IdAt(s, r) && forall j :: 0 <= j < r ==> !IdAt(s, j)
  {
    FindIdFrom(s, 0)
  }

  /** `s[:end]`: a negative bound counts from the end, and any bound is
      clipped to the string. */
  function SliceTo(s: string, end: int): (r: string)
    ensures end >= 0 ==> r == s[..if end <= |s| then end else |s|]
    ensures end < 0 && |s| + end >= 0 ==> r == s[..|s| + end]
    ensures end < 0 && |s| + end < 0 ==> r == ""
  {
    if end >= 0 then s[..if end <= |s| then end else |s|]
    else if |s| + end >= 0 then s[..|s| + end]
    else ""
  }

  /** `s.replace("_id", "_name")`: every occurrence, scanned left to right
      without overlap. */
  function IdToName(s: string): string
    decreases |s|
  {
    if |s| >= 3 && s[..3] == "_id" then "_name" + IdToName(s[3..])
    else if s == [] then []
    else [s[0]] + IdToName(s[1..])
  }

  /** The replacement keeps the first character: both `"_id"` and
      `"_name"` start with `_`. */
  lemma IdToNameFirst(s: string)
    ensures s == [] <==> IdToName(s) == []
    ensures s != [] ==> IdToName(s)[0] == s[0]
  {
  }

  /** `IdAt` character by character. */
  lemma IdAtChars(s: string, i: int)
    ensures IdAt(s, i) <==> 0 <= i && i + 3 <= |s| && s[i] == '_' && s[i + 1] == 'i' && s[i + 2] == 'd'
  {
    if 0 <= i && i + 3 <= |s| && s[i] == '_' && s[i + 1] == 'i' && s[i + 2] == 'd' {
      assert s[i..i + 3] == "_id";
    }
  }

  /** A string without an underscore does not contain `"_id"`. */
  lemma NoUnderscoreNoId(s: string)
    requires '_' !in s
    ensures !ContainsId(s)
  {
    forall i | 0 <= i < |s| ensures !IdAt(s, i) {
      IdAtChars(s, i);
    }
  }

  /** A result that starts with `"id"` comes from a string that does. */
  lemma IdToNameStartsId(s: string)
    requires |IdToName(s)| >= 2 && IdToName(s)[0] == 'i' && IdToName(s)[1] == 'd'
    ensures |s| >= 2 && s[0] == 'i' && s[1] == 'd'
  {
    IdToNameFirst(s);
    if !(|s| >= 3 && s[..3] == "_id") {
      var t := IdToName(s[1..]);
      assert IdToName(s) == [s[0]] + t;
      assert t[0] == IdToName(s)[1];
      IdToNameFirst(s[1..]);
    }
  }

  /** No occurrence after a replaced prefix. */
  lemma NoIdAfterName(t: string)
    requires !ContainsId(t)
    ensures !ContainsId("_name" + t)
  {
    var r := "_name" + t;
    forall i | 0 <= i < |r| ensures !IdAt(r, i) {
      IdAtChars(r, i);
      if i >= 5 {
        IdAtChars(t, i - 5);
        if i + 3 <= |r| {
          assert r[i] == t[i - 5] && r[i + 1] == t[i - 4] && r[i + 2] == t[i - 3];
        }
      } else if i + 3 <= |r| {
        assert r[0] == '_' && r[1] == 'n' && r[2] == 'a' && r[3] == 'm' && r[4] == 'e';
      }
    }
  }

  /** No occurrence after a kept character that does not start one. */
  lemma NoIdAfterChar(s: string, t: string)
    requires s != [] && !(|s| >= 3 && s[..3] == "_id")
    requires t == IdToName(s[1..]) && !ContainsId(t)
    ensures !ContainsId([s[0]] + t)
  {
    var r := [s[0]] + t;
    forall i | 0 <= i < |r| ensures !IdAt(r, i) {
      IdAtChars(r, i);
      if i == 0 {
        if |r| >= 3 && r[0] == '_' && t[0] == 'i' && t[1] == 'd' {
          IdToNameStartsId(s[1..]);
        }
      } else {
        IdAtChars(t, i - 1);
        if i + 3 <= |r| {
          assert r[i] == t[i - 1] && r[i + 1] == t[i] && r[i + 2] == t[i + 1];
        }
      }
    }
  }

  /** The name column never contains `"_id"`: the replacement creates no
      new occurrence, so in particular it never ends with `"_id"`. */
  lemma {:induction false} IdToNameHasNoId(s: string)
    ensures !ContainsId(IdToName(s))
    ensures !EndsWith(IdToName(s), "_id")
    decreases |s|
  {
    var r := IdToName(s);
    if |s| >= 3 && s[..3] == "_id" {
      IdToNameHasNoId(s[3..]);
      NoIdAfterName(IdToName(s[3..]));
    } else if s != [] {
      IdToNameHasNoId(s[1..]);
      NoIdAfterChar(s, IdToName(s[1..]));
    }
    if EndsWith(r, "_id") {
      assert IdAt(r, |r| - 3);
    }
  }

  /** An occurrence past the first character survives dropping it. */
  lemma ContainsIdTail(s: string)
    requires ContainsId(s) && !(|s| >= 3 && s[..3] == "_id")
    ensures ContainsId(s[1..])
  {
    var i :| 0 <= i < |s| && IdAt(s, i);
    assert s[1..][i - 1..i + 2] == s[i..i + 3];
    assert IdAt(s[1..], i - 1);
  }

  /** The replacement never shortens, and lengthens by two at least when
      there is something to replace. */
  lemma {:induction false} IdToNameLonger(s: string)
    ensures |IdToName(s)| >= |s|
    ensures ContainsId(s) ==> |IdToName(s)| >= |s| + 2
    decreases |s|
  {
    if |s| >= 3 && s[..3] == "_id" {
      IdToNameLonger(s[3..]);
    } else if s != [] {
      IdToNameLonger(s[1..]);
      if ContainsId(s) {
        ContainsIdTail(s);
      }
    }
  }

  /** A many-to-one column and its name column are two different columns,
      and the name column is not itself many-to-one. */
  lemma NameColumnIsNew(c: string)
    requires EndsWith(c, "_id")
    ensures IdToName(c) != c
    ensures !EndsWith(IdToName(c), "_id")
  {
    assert IdAt(c, |c| - 3);
    IdToNameLonger(c);
    IdToNameHasNoId(c);
  }

  /** Appending `"_id"` to a string without `"_id"` creates exactly one
      occurrence, at the join. */
  lemma AppendIdFirstAt(base: string)
    requires !ContainsId(base)
    ensures FindId(base + "_id") == |base|
  {
    var s := base + "_id";
    assert IdAt(s, |base|) by { assert s[|base|..|base| + 3] == "_id"; }
    forall j | 0 <= j < |base| ensures !IdAt(s, j) {
      IdAtChars(s, j);
      if j + 3 <= |base| {
        IdAtChars(base, j);
        assert s[j] == base[j] && s[j + 1] == base[j + 1] && s[j + 2] == base[j + 2];
      } else if j == |base| - 1 {
        assert s[j + 1] == '_';
      } else {
        assert s[j + 2] == '_';
      }
    }
  }

  /** A non-empty string without `"_id"`, with `"_id"` appended, does not
      start with `"_id"`. */
  lemma NoIdAtFront(base: string)
    requires !ContainsId(base) && base != []
    ensures !((base + "_id")[..3] == "_id")
  {
    var s := base + "_id";
    if |base| >= 3 {
      assert s[..3] == base[..3];
      assert !IdAt(base, 0);
    } else if |base| == 1 {
      assert s[1] == '_';
    } else {
      assert s[2] == '_';
    }
  }

  /** Dropping the first character keeps a string free of `"_id"`. */
  lemma NoIdInTail(base: string)
    requires !ContainsId(base) && base != []
    ensures !ContainsId(base[1..])
  {
    forall i | IdAt(base[1..], i) ensures false {
      assert base[1..][i..i + 3] == base[i + 1..i + 4];
      assert IdAt(base, i + 1);
    }
  }

  /** The first occurrence of `"_id"` in `base + "_id" + rest`, for a
      `base` without one, is the one at the join: it becomes `"_name"` and
      the replacement goes on in `rest`. */
  lemma {:induction false} IdToNameAfter(base: string, rest: string)
    requires !ContainsId(base)
    ensures IdToName(base + "_id" + rest) == base + "_name" + IdToName(rest)
    decreases |base|
  {
    var s := base + "_id" + rest;
    if base == [] {
      assert s[..3] == "_id" && s[3..] == rest;
    } else {
      NoIdAtFront(base);
      assert s[..3] == (base + "_id")[..3];
      NoIdInTail(base);
      IdToNameAfter(base[1..], rest);
      assert s[1..] == base[1..] + "_id" + rest;
      assert base + "_name" + IdToName(rest) == [base[0]] + (base[1..] + "_name" + IdToName(rest));
    }
  }

  /** Appending `"_id"` to a string without `"_id"` and replacing gives
      the string with `"_name"` appended. */
  lemma IdToNameOfIdColumn(base: string)
    requires !ContainsId(base)
    ensures IdToName(base + "_id") == base + "_name"
  {
    IdToNameAfter(base, []);
    assert base + "_id" + [] == base + "_id";
  }

  /** Python's replacement changes every occurrence, not only the first:
      two columns' worth of `"_id"` both become `"_name"`. */
  lemma ReplaceEveryOccurrence(a: string, b: string)
    requires !ContainsId(a) && !ContainsId(b)
    ensures IdToName(a + "_id" + b + "_id") == a + "_name" + b + "_name"
  {
    IdToNameAfter(a, b + "_id");
    assert a + "_id" + b + "_id" == a + "_id" + (b + "_id");
    IdToNameOfIdColumn(b);
  }

  /** The usual case: a single trailing `"_id"`. */
  lemma ReplaceTrailingId()
    ensures IdToName("partner_id") == "partner_name"
  {
    assert "partner_id" == "partner" + "_id";
    NoUnderscoreNoId("partner");
    IdToNameOfIdColumn("partner");
    assert "partner" + "_name" == "partner_name";
  }
}
