/** The JavaScript string operations the pages use, over `seq<char>`:
    ASCII `toLowerCase`/`toUpperCase`, `includes`, `Array.join` and
    `String.split` with a one-character separator, `replace` of the first
    occurrence of a character, and capitalising the first character. */
module Text {

  predicate IsUpper(c: char) { 'A' <= c <= 'Z' }

  predicate IsLower(c: char) { 'a' <= c <= 'z' }

  /** ASCII `toLowerCase` of one character. */
  function LowerChar(c: char): (r: char)
    ensures !IsUpper(r)
    ensures IsUpper(c) ==> IsLower(r) && UpperChar(r) == c
    ensures !IsUpper(c) ==> r == c
  {
    if IsUpper(c) then (c as int + 32) as char else c
  }

  /** ASCII `toUpperCase` of one character. */
  function UpperChar(c: char): (r: char)
    ensures !IsLower(r)
    ensures IsLower(c) ==> IsUpper(r) && r as int + 32 == c as int
    ensures !IsLower(c) ==> r == c
  {
    if IsLower(c) then (c as int - 32) as char else c
  }

  /** ASCII `toLowerCase`: position by position, upper-case letters become
      lower-case and nothing else changes. */
  function Lower(s: string): (r: string)
    ensures |r| == |s|
    ensures forall i :: 0 <= i < |s| ==> r[i] == LowerChar(s[i])
    ensures forall i :: 0 <= i < |r| ==> !IsUpper(r[i])
  {
    if s == [] then [] else [LowerChar(s[0])] + Lower(s[1..])
  }

  /** `needle` occurs in `hay` starting at index `i`. */
  ghost predicate OccursAt(hay: string, needle: string, i: int)
  {
    0 <= i && i + |needle| <= |hay| && hay[i..i + |needle|] == needle
  }

  lemma ShiftOccurrence(hay: string, needle: string, i: int)
    requires hay != [] && 0 <= i
    ensures OccursAt(hay[1..], needle, i) <==> OccursAt(hay, needle, i + 1)
  {
    if 0 <= i && i + |needle| <= |hay| - 1 {
      assert hay[1..][i..i + |needle|] == hay[i + 1..i + 1 + |needle|];
    }
  }

  /** `hay.includes(needle)`: some position of `hay` starts a copy of
      `needle`. The empty needle is included in every string. */
  function Includes(hay: string, needle: string): (r: bool)
    ensures r <==> exists i :: OccursAt(hay, needle, i)
    decreases |hay|
  {
    if needle <= hay then
      assert OccursAt(hay, needle, 0);
      true
    else if hay == [] then
      assert forall i :: !OccursAt(hay, needle, i);
      false
    else
      var r := Includes(hay[1..], needle);
      assert r ==> exists i :: OccursAt(hay, needle, i) by {
        if r {
          var j :| OccursAt(hay[1..], needle, j);
          ShiftOccurrence(hay, needle, j);
        }
      }
      assert (exists i :: OccursAt(hay, needle, i)) ==> r by {
        if exists i :: OccursAt(hay, needle, i) {
          var i :| OccursAt(hay, needle, i);
          assert i != 0;
          ShiftOccurrence(hay, needle, i - 1);
        }
      }
      r
  }

  /** Number of occurrences of `c` in `s`. */
  function CountChar(s: string, c: char): nat
  {
    if s == [] then 0 else (if s[0] == c then 1 else 0) + CountChar(s[1..], c)
  }

  lemma {:induction false} CountCharAppend(a: string, b: string, c: char)
    ensures CountChar(a + b, c) == CountChar(a, c) + CountChar(b, c)
    decreases |a|
  {
    if a == [] {
      assert a + b == b;
    } else {
      assert (a + b)[1..] == a[1..] + b;
      CountCharAppend(a[1..], b, c);
    }
  }

  lemma {:induction false} CountCharAbsent(s: string, c: char)
    ensures CountChar(s, c) == 0 <==> c !in s
    decreases |s|
  {
    if s != [] {
      CountCharAbsent(s[1..], c);
      assert s == [s[0]] + s[1..];
    }
  }

  /** `parts.join(sep)` for a one-character separator. */
  function Join(parts: seq<string>, sep: char): string
  {
    if |parts| == 0 then ""
    else if |parts| == 1 then parts[0]
    else parts[0] + [sep] + Join(parts[1..], sep)
  }

  /** `s.split(sep)` for a one-character separator: the maximal pieces of `s`
      that do not contain `sep`, one more than there are separators. */
  function Split(s: string, sep: char): (r: seq<string>)
    ensures |r| == CountChar(s, sep) + 1
    ensures forall i :: 0 <= i < |r| ==> sep !in r[i]
    ensures Join(r, sep) == s
    ensures r[0] <= s && (|r[0]| < |s| ==> s[|r[0]|] == sep)
    decreases |s|
  {
    if s == [] then [""]
    else if s[0] == sep then
      var rest := Split(s[1..], sep);
      assert s == [sep] + s[1..];
      [""] + rest
    else
      var rest := Split(s[1..], sep);
      var r := [[s[0]] + rest[0]] + rest[1..];
      assert s == [s[0]] + s[1..];
      assert Join(r, sep) == s by {
        if |rest| > 1 {
          assert Join(rest, sep) == rest[0] + [sep] + Join(rest[1..], sep);
          assert r[1..] == rest[1..];
        }
      }
      r
  }

  /** Splitting a piece free of `sep` followed by more text: the piece opens
      the first field. */
  lemma {:induction false} SplitPrefix(p: string, t: string, sep: char)
    requires sep !in p
    ensures Split(p + t, sep) == [p + Split(t, sep)[0]] + Split(t, sep)[1..]
    decreases |p|
  {
    var st := Split(t, sep);
    if p == [] {
      assert p + t == t;
      assert p + st[0] == st[0];
      assert st == [st[0]] + st[1..];
    } else {
      var pt := p + t;
      assert pt[0] == p[0] && pt[0] != sep;
      assert pt[1..] == p[1..] + t;
      var rest := Split(pt[1..], sep);
      assert Split(pt, sep) == [[p[0]] + rest[0]] + rest[1..];
      SplitPrefix(p[1..], t, sep);
      assert rest == [p[1..] + st[0]] + st[1..];
      assert [p[0]] + (p[1..] + st[0]) == p + st[0];
    }
  }

  /** Join and Split are inverse when no part contains the separator. */
  lemma {:induction false} SplitJoin(parts: seq<string>, sep: char)
    requires |parts| >= 1
    requires forall i :: 0 <= i < |parts| ==> sep !in parts[i]
    ensures Split(Join(parts, sep), sep) == parts
    decreases |parts|
  {
    if |parts| == 1 {
      SplitPrefix(parts[0], "", sep);
      assert parts[0] + "" == parts[0];
    } else {
      var tail := Join(parts[1..], sep);
      SplitJoin(parts[1..], sep);
      SplitAfterSep(tail, sep);
      SplitJoinStep(parts[0], tail, parts[1..], sep);
      assert Join(parts, sep) == parts[0] + ([sep] + tail);
      assert parts == [parts[0]] + parts[1..];
    }
  }

  /** A leading separator splits off an empty first field. */
  lemma SplitAfterSep(tail: string, sep: char)
    ensures Split([sep] + tail, sep) == [""] + Split(tail, sep)
  {
    assert ([sep] + tail)[1..] == tail;
  }

  /** The inductive step of SplitJoin: a separator-free head in front of a
      separator and a tail that splits into `rest`. */
  lemma SplitJoinStep(head: string, tail: string, rest: seq<string>, sep: char)
    requires sep !in head
    requires Split(tail, sep) == rest
    ensures Split(head + ([sep] + tail), sep) == [head] + rest
  {
    SplitAfterSep(tail, sep);
    var st := Split([sep] + tail, sep);
    SplitPrefix(head, [sep] + tail, sep);
    assert st[0] == "" && st[1..] == rest;
    assert head + st[0] == head;
  }

  /** Occurrences of `sep` in a join: one per gap plus those inside the parts. */
  function CountInParts(parts: seq<string>, sep: char): nat
  {
    if parts == [] then 0 else CountChar(parts[0], sep) + CountInParts(parts[1..], sep)
  }

  lemma {:induction false} JoinCount(parts: seq<string>, sep: char)
    requires |parts| >= 1
    ensures CountChar(Join(parts, sep), sep) == CountInParts(parts, sep) + |parts| - 1
    decreases |parts|
  {
    if |parts| == 1 {
      assert parts[1..] == [];
    } else {
      JoinCount(parts[1..], sep);
      CountCharAppend(parts[0] + [sep], Join(parts[1..], sep), sep);
      CountCharAppend(parts[0], [sep], sep);
    }
  }

  lemma {:induction false} CountInPartsPositive(parts: seq<string>, sep: char, k: int)
    requires 0 <= k < |parts| && sep in parts[k]
    ensures CountInParts(parts, sep) > 0
    decreases |parts|
  {
    if k == 0 {
      CountCharAbsent(parts[0], sep);
    } else {
      CountInPartsPositive(parts[1..], sep, k - 1);
    }
  }

  /** A part that contains the separator makes the joined text split into
      more pieces than there were parts. */
  lemma SplitJoinOverflow(parts: seq<string>, sep: char, k: int)
    requires 0 <= k < |parts| && sep in parts[k]
    ensures |Split(Join(parts, sep), sep)| > |parts|
  {
    JoinCount(parts, sep);
    CountInPartsPositive(parts, sep, k);
  }

  /** A join contains the separator only where the parts already did, or
      between two parts. */
  lemma {:induction false} JoinAvoids(parts: seq<string>, sep: char, c: char)
    requires c != sep
    requires forall i :: 0 <= i < |parts| ==> c !in parts[i]
    ensures c !in Join(parts, sep)
    decreases |parts|
  {
    if |parts| > 1 {
      JoinAvoids(parts[1..], sep, c);
    }
  }

  /** `s.replace(a, b)` with a one-character pattern: the first `a`, and only
      that one, becomes `b`. */
  function ReplaceFirst(s: string, a: char, b: char): (r: string)
    ensures |r| == |s|
    ensures forall i :: 0 <= i < |s| ==> r[i] == if s[i] == a && a !in s[..i] then b else s[i]
    ensures a !in s ==> r == s
    decreases |s|
  {
    if s == [] then []
    else if s[0] == a then
      assert forall i :: 0 < i < |s| ==> a in s[..i] by {
        forall i | 0 < i < |s| ensures a in s[..i] {
          assert s[..i][0] == a;
        }
      }
      [b] + s[1..]
    else
      var rest := ReplaceFirst(s[1..], a, b);
      assert forall i :: 0 < i < |s| ==> s[..i] == [s[0]] + s[1..][..i - 1];
      [s[0]] + rest
  }

  /** When the first `a` sits at index `k`, replacing it splices `b` in there. */
  lemma ReplaceFirstAt(s: string, a: char, b: char, k: int)
    requires 0 <= k < |s| && s[k] == a && a !in s[..k]
    ensures ReplaceFirst(s, a, b) == s[..k] + [b] + s[k + 1..]
  {
    var r := ReplaceFirst(s, a, b);
    forall i | 0 <= i < |s| ensures r[i] == (s[..k] + [b] + s[k + 1..])[i] {
      if i < k {
        assert s[i] == s[..k][i];
      } else if i > k {
        assert a in s[..i] by { assert s[..i][k] == a; }
      }
    }
  }

  /** `s.charAt(0).toUpperCase() + s.slice(1)` (the empty string stays empty). */
  function Capitalize(s: string): string
  {
    if s == [] then [] else [UpperChar(s[0])] + s[1..]
  }

  /** `name.split(' ')[0]`: the text before the first space. */
  function FirstWord(name: string): (r: string)
    ensures r <= name
    ensures ' ' !in r
    ensures |r| < |name| ==> name[|r|] == ' '
  {
    Split(name, ' ')[0]
  }
}
