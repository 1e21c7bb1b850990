/** The handful of `str` operations the Python code relies on, over
    `seq<char>`: whitespace stripping, ASCII lower-casing, substring search,
    single-character replacement and joining. */
module Text {

  /** Characters for which Python's `str.isspace()` holds. */
  predicate IsSpace(c: char) {
    var n := c as int;
    n == 0x20 || 0x09 <= n <= 0x0D || 0x1C <= n <= 0x1F || n == 0x85 || n == 0xA0
    || n == 0x1680 || 0x2000 <= n <= 0x200A || n == 0x2028 || n == 0x2029
    || n == 0x202F || n == 0x205F || n == 0x3000
  }

  /** Some character of `s` is not whitespace (Python: `s.strip() != ""`). */
  predicate HasNonSpace(s: string) {
    exists i :: 0 <= i < |s| && !IsSpace(s[i])
  }

  /** Number of whitespace characters at the start of `s`. */
  function LeadingSpaces(s: string): (n: nat)
    ensures n <= |s|
    ensures forall i :: 0 <= i < n ==> IsSpace(s[i])
    ensures n < |s| ==> !IsSpace(s[n])
  {
    if |s| == 0 || !IsSpace(s[0]) then 0 else 1 + LeadingSpaces(s[1..])
  }

  /** Index at which the trailing whitespace of `s` begins. */
  function TrailingStart(s: string): (n: nat)
    ensures n <= |s|
    ensures forall i :: n <= i < |s| ==> IsSpace(s[i])
    ensures 0 < n ==> !IsSpace(s[n - 1])
  {
    if |s| == 0 || !IsSpace(s[|s| - 1]) then |s| else TrailingStart(s[..|s| - 1])
  }

  /** Python's `s.strip()`: `s` without leading and trailing whitespace. */
  function Strip(s: string): (r: string)
    ensures LeadingSpaces(s) + |r| <= |s|
    ensures r == "" <==> !HasNonSpace(s)
    ensures r != "" ==> !IsSpace(r[0]) && !IsSpace(r[|r| - 1])
    ensures r != "" ==> r == s[LeadingSpaces(s)..LeadingSpaces(s) + |r|]
    ensures forall i :: 0 <= i < LeadingSpaces(s) ==> IsSpace(s[i])
    ensures forall i :: LeadingSpaces(s) + |r| <= i < |s| ==> IsSpace(s[i])
  {
    var a := LeadingSpaces(s);
    var b := TrailingStart(s);
    if b <= a then
      assert forall i :: 0 <= i < |s| ==> IsSpace(s[i]) by {
        forall i | 0 <= i < |s| ensures IsSpace(s[i]) {
          if i >= b {
          } else {
            assert i < a;
          }
        }
      }
      ""
    else
      assert !IsSpace(s[a]);
      s[a..b]
  }

  /** ASCII upper-case letters map to lower case; every other character is kept. */
  function LowerChar(c: char): char {
    if 'A' <= c <= 'Z' then (c as int + 32) as char else c
  }

  /** Python's `s.lower()`, restricted to ASCII letters. */
  function Lower(s: string): (r: string)
    ensures |r| == |s|
    ensures forall i :: 0 <= i < |s| ==> r[i] == LowerChar(s[i])
  {
    seq(|s|, i requires 0 <= i < |s| => LowerChar(s[i]))
  }

  /** Python's `sub in s`. */
  predicate Contains(s: string, sub: string)
    decreases |s|
  {
    (|sub| <= |s| && s[..|sub|] == sub) || (|s| > 0 && Contains(s[1..], sub))
  }

  /** `sub` occurs in `s` starting at position `i`. */
  predicate OccursAt(s: string, sub: string, i: nat) {
    i + |sub| <= |s| && s[i..i + |sub|] == sub
  }

  /** `Contains` is substring search: `sub in s` holds exactly when `sub`
      occurs at some position of `s`. */
  lemma {:induction false} ContainsExact(s: string, sub: string)
    ensures Contains(s, sub) <==> exists i: nat :: OccursAt(s, sub, i)
    decreases |s|
  {
    if |s| > 0 {
      ContainsExact(s[1..], sub);
      forall i: nat | OccursAt(s[1..], sub, i) ensures OccursAt(s, sub, i + 1) {
        assert s[1..][i..i + |sub|] == s[i + 1..i + 1 + |sub|];
      }
      forall i: nat | 0 < i && OccursAt(s, sub, i) ensures OccursAt(s[1..], sub, i - 1) {
        assert s[1..][i - 1..i - 1 + |sub|] == s[i..i + |sub|];
      }
    }
    if |sub| <= |s| && s[..|sub|] == sub {
      assert OccursAt(s, sub, 0);
    }
  }

  /** Python's `s.replace(a, b)` for single characters. */
  function ReplaceChar(s: string, a: char, b: char): (r: string)
    ensures |r| == |s|
    ensures forall i :: 0 <= i < |s| ==> r[i] == (if s[i] == a then b else s[i])
  {
    seq(|s|, i requires 0 <= i < |s| => if s[i] == a then b else s[i])
  }

  /** Sum of the lengths of `parts`. */
  function TotalLength(parts: seq<string>): nat {
    if |parts| == 0 then 0 else |parts[0]| + TotalLength(parts[1..])
  }

  /** Python's `sep.join(parts)`. */
  function Join(sep: string, parts: seq<string>): (r: string)
    ensures |parts| == 0 ==> r == ""
    ensures |parts| > 0 ==> |r| == TotalLength(parts) + (|parts| - 1) * |sep|
  {
    if |parts| == 0 then ""
    else if |parts| == 1 then parts[0]
    else parts[0] + sep + Join(sep, parts[1..])
  }

  /** `Strip(s)` is the slice from the first to the last non-whitespace
      character. */
  lemma StripBetween(s: string, l: nat, e: nat)
    requires l < e <= |s| && !IsSpace(s[l]) && !IsSpace(s[e - 1])
    requires forall i :: 0 <= i < l ==> IsSpace(s[i])
    requires forall i :: e <= i < |s| ==> IsSpace(s[i])
    ensures Strip(s) == s[l..e]
  {
    assert LeadingSpaces(s) == l;
    var r := Strip(s);
    assert r != "";
    assert LeadingSpaces(s) + |r| == e;
  }
}
