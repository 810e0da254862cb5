/** The JavaScript built-ins the application relies on, with their ECMAScript
    semantics written out: truthiness of nullable strings, `||` on strings,
    `String.prototype.includes`, `lastIndexOf` on one character,
    `substring` and `Array.prototype.join`. A `char` here is one Unicode code
    point, where JavaScript counts UTF-16 code units: indices differ from
    JavaScript's for characters outside the Basic Multilingual Plane, and no
    string derived here depends on those indices. */
module JsStrings {

  /** A value that may be `null`. */
  datatype Option<T> = None | Some(value: T)

  /** A nullable string is truthy when it is neither `null` nor `""`. */
  predicate Truthy(s: Option<string>)
    ensures s.None? ==> !Truthy(s)
    ensures s.Some? ==> (Truthy(s) <==> s.value != "")
  {
    s.Some? && s.value != ""
  }

  /** `a || b` on two strings: `a` unless it is the (falsy) empty string. */
  function OrElse(a: string, b: string): (r: string)
    ensures a != "" ==> r == a
    ensures a == "" ==> r == b
    ensures r != "" <==> a != "" || b != ""
  {
    if a != "" then a else b
  }

  // ---------------------------------------------------------------------
  // includes

  /** `sub` occurs in `s` starting at index `i`. */
  ghost predicate OccursAt(s: string, sub: string, i: int) {
    0 <= i && i + |sub| <= |s| && s[i..i + |sub|] == sub
  }

  /** `s.includes(sub)`, scanning from the left. */
  function Includes(s: string, sub: string): (r: bool)
    ensures |sub| == 0 ==> r
    ensures r ==> |sub| <= |s|
    decreases |s|
  {
    if |sub| > |s| then false
    else if s[..|sub|] == sub then true
    else Includes(s[1..], sub)
  }

  /** `Includes` holds exactly when `sub` occurs somewhere in `s`. */
  lemma {:induction false} IncludesIffOccurs(s: string, sub: string)
    ensures Includes(s, sub) <==> exists i :: OccursAt(s, sub, i)
    decreases |s|
  {
    if |sub| > |s| {
      forall i ensures !OccursAt(s, sub, i) { }
    } else if s[..|sub|] == sub {
      assert OccursAt(s, sub, 0);
    } else {
      IncludesIffOccurs(s[1..], sub);
      if Includes(s[1..], sub) {
        var i :| OccursAt(s[1..], sub, i);
        assert s[1..][i..i + |sub|] == s[i + 1..i + 1 + |sub|];
        assert OccursAt(s, sub, i + 1);
      } else {
        forall i | OccursAt(s, sub, i) ensures false {
          assert i != 0;
          assert s[1..][i - 1..i - 1 + |sub|] == s[i..i + |sub|];
          assert OccursAt(s[1..], sub, i - 1);
        }
      }
    }
  }

  // ---------------------------------------------------------------------
  // lastIndexOf and substring

  /** `s.lastIndexOf(c)`: the greatest index holding `c`, or -1 when there is none. */
  function LastIndexOf(s: string, c: char): (r: int)
    ensures -1 <= r < |s|
    ensures r >= 0 ==> s[r] == c
    ensures forall j :: r < j < |s| ==> s[j] != c
  {
    if |s| == 0 then -1
    else if s[|s| - 1] == c then |s| - 1
    else LastIndexOf(s[..|s| - 1], c)
  }

  /** An argument of `substring`, clamped into [0, len]. */
  function Clamp(x: int, len: nat): (r: nat)
    ensures r <= len
  {
    if x < 0 then 0 else if x > len then len else x
  }

  /** `s.substring(start, end)`: both arguments are clamped into [0, |s|] and
      swapped when the first exceeds the second. */
  function Substring(s: string, start: int, end: int): (r: string)
    ensures |r| <= |s|
    ensures 0 <= start <= end <= |s| ==> r == s[start..end]
    ensures 0 <= end <= start <= |s| ==> r == s[end..start]
    ensures start <= 0 && end >= |s| ==> r == s
    ensures start <= 0 && end <= 0 ==> r == ""
  {
    var a := Clamp(start, |s|);
    var b := Clamp(end, |s|);
    if a <= b then s[a..b] else s[b..a]
  }

  // ---------------------------------------------------------------------
  // join and its inverse

  /** `parts.join(sep)`. */
  function Join(parts: seq<string>, sep: string): (r: string)
    ensures |parts| == 0 ==> r == ""
    ensures |parts| == 1 ==> r == parts[0]
    ensures |parts| > 0 ==> parts[0] <= r
    decreases |parts|
  {
    if |parts| == 0 then ""
    else if |parts| == 1 then parts[0]
    else Join(parts[..|parts| - 1], sep) + sep + parts[|parts| - 1]
  }

  /** No part contains the first character of the separator. */
  predicate FreeOfSeparator(parts: seq<string>, sep: string)
    requires |sep| > 0
  {
    forall i :: 0 <= i < |parts| ==> sep[0] !in parts[i]
  }

  /** Cuts `s` at each occurrence of the separator's first character and
      drops the separator that starts there: the inverse of `Join` on parts
      that do not contain that character. */
  function Unjoin(s: string, sep: string): (r: seq<string>)
    requires |sep| > 0
    ensures |r| > 0
    decreases |s|
  {
    var k := LastIndexOf(s, sep[0]);
    if k < 0 then [s]
    else Unjoin(s[..k], sep) + [s[if k + |sep| <= |s| then k + |sep| else |s|..]]
  }

  /** Joining a non-empty list of parts free of the separator's first
      character keeps every part, in order: splitting the joined string gives
      the list back. */
  lemma {:induction false} UnjoinJoin(parts: seq<string>, sep: string)
    requires |sep| > 0 && sep[0] !in sep[1..]
    requires |parts| > 0 && FreeOfSeparator(parts, sep)
    ensures Unjoin(Join(parts, sep), sep) == parts
    decreases |parts|
  {
    if |parts| == 1 {
      assert sep[0] !in parts[0];
      assert LastIndexOf(parts[0], sep[0]) == -1;
    } else {
      var init, last := parts[..|parts| - 1], parts[|parts| - 1];
      assert FreeOfSeparator(init, sep) by {
        forall i | 0 <= i < |init| ensures sep[0] !in init[i] {
          assert init[i] == parts[i];
        }
      }
      assert sep[0] !in last;
      var j := Join(init, sep);
      var s := j + sep + last;
      assert Join(parts, sep) == s;
      assert s[|j|] == sep[0];
      forall m | |j| < m < |s| ensures s[m] != sep[0] {
        if m < |j| + |sep| {
          assert s[m] == sep[1..][m - |j| - 1];
        } else {
          assert s[m] == last[m - |j| - |sep|];
        }
      }
      LastIndexOfIs(s, sep[0], |j|);
      assert s[..|j|] == j;
      assert s[|j| + |sep|..] == last;
      UnjoinJoin(init, sep);
      assert init + [last] == parts;
    }
  }

  /** The characterisation of `LastIndexOf` pins down its value. */
  lemma LastIndexOfIs(s: string, c: char, k: nat)
    requires k < |s| && s[k] == c
    requires forall m :: k < m < |s| ==> s[m] != c
    ensures LastIndexOf(s, c) == k
  {
  }
}
