/** The JavaScript string primitives the explorer relies on: case mapping,
    `includes`, `trim`, `split` and `join`. Case mapping is modelled on ASCII
    letters only; `trim` uses the full ECMAScript white-space set. */
module Text {

  /** `toLowerCase` on one character: 'A'..'Z' become 'a'..'z', all else is kept. */
  function LowerChar(c: char): char
  {
    if 'A' <= c <= 'Z' then (c as int + 32) as char else c
  }

  /** `toUpperCase` on one character: 'a'..'z' become 'A'..'Z', all else is kept. */
  function UpperChar(c: char): char
  {
    if 'a' <= c <= 'z' then (c as int - 32) as char else c
  }

  /** `s.toLowerCase()`. */
  function Lower(s: string): (r: string)
    ensures |r| == |s|
    ensures forall i :: 0 <= i < |s| ==> r[i] == LowerChar(s[i])
  {
    if s == [] then [] else [LowerChar(s[0])] + Lower(s[1..])
  }

  /** `s.toUpperCase()`. */
  function Upper(s: string): (r: string)
    ensures |r| == |s|
    ensures forall i :: 0 <= i < |s| ==> r[i] == UpperChar(s[i])
  {
    if s == [] then [] else [UpperChar(s[0])] + Upper(s[1..])
  }

  /** Lower-casing is idempotent and forgets any earlier upper-casing, and
      upper-casing forgets any earlier lower-casing. */
  lemma CaseFolding(s: string)
    ensures Lower(Lower(s)) == Lower(s)
    ensures Lower(Upper(s)) == Lower(s)
    ensures Upper(Lower(s)) == Upper(s)
  {
  }

  /** Lower-casing commutes with concatenation. */
  lemma LowerConcat(a: string, b: string)
    ensures Lower(a + b) == Lower(a) + Lower(b)
  {
  }

  /** `needle` occurs in `hay` starting at position `i`. */
  predicate OccursAt(hay: string, needle: string, i: nat)
  {
    i + |needle| <= |hay| && hay[i..i + |needle|] == needle
  }

  /** `hay.includes(needle)`: the substring test. The empty needle is found in every string. */
  function Includes(hay: string, needle: string): (r: bool)
    ensures r <==> exists i: nat :: OccursAt(hay, needle, i)
    ensures needle == [] ==> r
    decreases |hay|
  {
    if |needle| > |hay| then false
    else if hay[..|needle|] == needle then (assert OccursAt(hay, needle, 0); true)
    else
      var found := Includes(hay[1..], needle);
      if found then
        var j: nat :| OccursAt(hay[1..], needle, j);
        assert OccursAt(hay, needle, j + 1);
        true
      else
        assert forall i: nat :: OccursAt(hay, needle, i) ==> i > 0 && OccursAt(hay[1..], needle, i - 1);
        false
  }

  /** A needle found in a part of a string is found in the whole string. */
  lemma {:induction false} IncludesInConcat(a: string, b: string, c: string, needle: string)
    requires Includes(b, needle)
    ensures Includes(a + b + c, needle)
  {
    var i: nat :| OccursAt(b, needle, i);
    assert (a + b + c)[|a| + i..|a| + i + |needle|] == b[i..i + |needle|];
    assert OccursAt(a + b + c, needle, |a| + i);
  }

  /** A needle found in a substring of `hay` is found in `hay`. */
  lemma IncludesTransitive(hay: string, part: string, needle: string)
    requires Includes(hay, part) && Includes(part, needle)
    ensures Includes(hay, needle)
  {
    var i: nat :| OccursAt(hay, part, i);
    var j: nat :| OccursAt(part, needle, j);
    assert part == hay[i..i + |part|];
    forall k | 0 <= k < |needle| ensures hay[i + j + k] == needle[k] {
      assert needle[k] == part[j + k] == hay[i + j + k];
    }
    assert hay[i + j..i + j + |needle|] == needle;
    assert OccursAt(hay, needle, i + j);
  }

  /** ECMAScript's WhiteSpace and LineTerminator code points: what `trim` removes. */
  predicate IsWhitespace(c: char)
  {
    var n := c as int;
    n == 0x09 || n == 0x0A || n == 0x0B || n == 0x0C || n == 0x0D || n == 0x20 ||
    n == 0xA0 || n == 0x1680 || (0x2000 <= n <= 0x200A) || n == 0x2028 || n == 0x2029 ||
    n == 0x202F || n == 0x205F || n == 0x3000 || n == 0xFEFF
  }

  /** `s.trimStart()`: drops the leading white space and nothing else. */
  function TrimStart(s: string): (r: string)
    ensures |r| <= |s| && r == s[|s| - |r|..]
    ensures forall i :: 0 <= i < |s| - |r| ==> IsWhitespace(s[i])
    ensures r != [] ==> !IsWhitespace(r[0])
  {
    if s != [] && IsWhitespace(s[0]) then TrimStart(s[1..]) else s
  }

  /** `s.trimEnd()`: drops the trailing white space and nothing else. */
  function TrimEnd(s: string): (r: string)
    ensures |r| <= |s| && r == s[..|r|]
    ensures forall i :: |r| <= i < |s| ==> IsWhitespace(s[i])
    ensures r != [] ==> !IsWhitespace(r[|r| - 1])
  {
    if s != [] && IsWhitespace(s[|s| - 1]) then TrimEnd(s[..|s| - 1]) else s
  }

  /** `s.trim()`: the part of `s` left between its leading and its trailing white space. */
  function Trim(s: string): (r: string)
    ensures exists k: nat ::
              && OccursAt(s, r, k)
              && (forall i :: 0 <= i < k ==> IsWhitespace(s[i]))
              && (forall i :: k + |r| <= i < |s| ==> IsWhitespace(s[i]))
    ensures r != [] ==> !IsWhitespace(r[0]) && !IsWhitespace(r[|r| - 1])
    ensures r == [] <==> forall i :: 0 <= i < |s| ==> IsWhitespace(s[i])
  {
    var e := TrimEnd(s);
    var r := TrimStart(e);
    assert OccursAt(s, r, |e| - |r|);
    r
  }

  /** Trimming twice is trimming once. */
  lemma TrimIdempotent(s: string)
    ensures Trim(Trim(s)) == Trim(s)
  {
  }

  /** `s.split(sep)` for a one-character separator: always at least one piece
      (the empty string splits into `[""]`), and no piece holds the separator. */
  function Split(s: string, sep: char): (parts: seq<string>)
    ensures |parts| >= 1
    ensures forall k :: 0 <= k < |parts| ==> sep !in parts[k]
  {
    if s == [] then [""]
    else
      var rest := Split(s[1..], sep);
      if s[0] == sep then [""] + rest else [[s[0]] + rest[0]] + rest[1..]
  }

  /** `parts.join(sep)`. */
  function Join(parts: seq<string>, sep: char): string
  {
    if |parts| == 0 then ""
    else if |parts| == 1 then parts[0]
    else parts[0] + [sep] + Join(parts[1..], sep)
  }

  /** Prepending a character to the first piece prepends it to the joined string. */
  lemma JoinConsFirst(c: char, w: string, rest: seq<string>, sep: char)
    ensures Join([[c] + w] + rest, sep) == [c] + Join([w] + rest, sep)
  {
    if |rest| > 0 {
      assert ([[c] + w] + rest)[1..] == rest;
      assert ([w] + rest)[1..] == rest;
    }
  }

  /** Joining the pieces of a split with the same separator gives back the string. */
  lemma {:induction false} JoinSplit(s: string, sep: char)
    ensures Join(Split(s, sep), sep) == s
  {
    if s != [] {
      var rest := Split(s[1..], sep);
      JoinSplit(s[1..], sep);
      if s[0] == sep {
        assert ([""] + rest)[1..] == rest;
      } else {
        JoinConsFirst(s[0], rest[0], rest[1..], sep);
        assert [rest[0]] + rest[1..] == rest;
      }
    }
  }
}
