/** The search box: the query is trimmed and lower-cased, then decides between
    going back to the first page, a lookup by id, and a lookup by name whose
    failure filters the current page by substring. */
module Search {

  /** The characters `String.prototype.trim` removes: the ECMAScript WhiteSpace and
      LineTerminator code points. */
  predicate IsJsSpace(c: char) {
    ('\U{0009}' <= c <= '\U{000D}') || c == ' ' || c == '\U{00A0}' || c == '\U{1680}' ||
    ('\U{2000}' <= c <= '\U{200A}') || c == '\U{2028}' || c == '\U{2029}' ||
    c == '\U{202F}' || c == '\U{205F}' || c == '\U{3000}' || c == '\U{FEFF}'
  }

  /** The number of whitespace characters `s` starts with. */
  function LeadingSpaces(s: string): (n: nat)
    ensures n <= |s|
    ensures forall k :: 0 <= k < n ==> IsJsSpace(s[k])
    ensures n < |s| ==> !IsJsSpace(s[n])
  {
    if s == [] || !IsJsSpace(s[0]) then 0 else 1 + LeadingSpaces(s[1..])
  }

  /** The number of whitespace characters `s` ends with. */
  function TrailingSpaces(s: string): (n: nat)
    ensures n <= |s|
    ensures forall k :: |s| - n <= k < |s| ==> IsJsSpace(s[k])
    ensures n < |s| ==> !IsJsSpace(s[|s| - n - 1])
  {
    if s == [] || !IsJsSpace(s[|s| - 1]) then 0 else 1 + TrailingSpaces(s[..|s| - 1])
  }

  /** `s.trim()`. */
  function Trim(s: string): string {
    var t := s[LeadingSpaces(s)..];
    t[..|t| - TrailingSpaces(t)]
  }

  predicate Trimmed(s: string) {
    s == [] || (!IsJsSpace(s[0]) && !IsJsSpace(s[|s| - 1]))
  }

  /** Trimming removes whitespace from both ends and nothing else: the input is the
      result with whitespace around it. */
  lemma TrimShape(s: string)
    ensures Trimmed(Trim(s))
    ensures var i := LeadingSpaces(s);
      i + |Trim(s)| <= |s| && s[i..i + |Trim(s)|] == Trim(s) &&
      (forall k :: 0 <= k < i ==> IsJsSpace(s[k])) &&
      (forall k :: i + |Trim(s)| <= k < |s| ==> IsJsSpace(s[k]))
  {
    var i := LeadingSpaces(s);
    var t := s[i..];
    var n := TrailingSpaces(t);
    var r := t[..|t| - n];
    assert r == Trim(s);
    assert r == s[i..i + |r|];
    forall k | i + |r| <= k < |s| ensures IsJsSpace(s[k]) {
      assert s[k] == t[k - i];
    }
    if r != [] {
      assert r[0] == t[0];
      assert r[|r| - 1] == t[|t| - n - 1];
    }
  }

  /** A string without whitespace at either end is its own trim. */
  lemma TrimOfTrimmed(s: string)
    requires Trimmed(s)
    ensures Trim(s) == s
  {
    if s != [] {
      assert LeadingSpaces(s) == 0;
      assert TrailingSpaces(s) == 0;
    }
  }

  /** The lower-case form of one character. Only the ASCII letters are mapped. */
  function LowerChar(c: char): char {
    if 'A' <= c <= 'Z' then (c as int - 'A' as int + 'a' as int) as char else c
  }

  /** `s.toLowerCase()`, on ASCII letters. */
  function ToLower(s: string): (r: string)
    ensures |r| == |s|
    ensures forall i :: 0 <= i < |s| ==> r[i] == LowerChar(s[i])
  {
    if s == [] then [] else [LowerChar(s[0])] + ToLower(s[1..])
  }

  predicate NoUpper(s: string) {
    forall i :: 0 <= i < |s| ==> !('A' <= s[i] <= 'Z')
  }

  /** Lower-casing leaves no upper-case letter, changes nothing the second time,
      and keeps whitespace where it was. */
  lemma ToLowerFacts(s: string)
    ensures NoUpper(ToLower(s))
    ensures ToLower(ToLower(s)) == ToLower(s)
    ensures forall i :: 0 <= i < |s| ==> (IsJsSpace(ToLower(s)[i]) <==> IsJsSpace(s[i]))
  {
  }

  /** `e.target.value.trim().toLowerCase()`. */
  function NormalizeQuery(raw: string): (q: string)
    ensures |q| <= |raw|
  {
    ToLower(Trim(raw))
  }

  /** The query is in normal form: no whitespace at either end, no upper-case
      letter; normalising it again changes nothing. */
  lemma NormalizeQueryNormal(raw: string)
    ensures Trimmed(NormalizeQuery(raw)) && NoUpper(NormalizeQuery(raw))
    ensures NormalizeQuery(NormalizeQuery(raw)) == NormalizeQuery(raw)
  {
    var t := Trim(raw);
    TrimShape(raw);
    ToLowerFacts(t);
    var q := ToLower(t);
    assert Trimmed(q);
    TrimOfTrimmed(q);
  }

  /** The query is empty exactly when the input is whitespace only. */
  lemma EmptyQueryIsBlank(raw: string)
    ensures NormalizeQuery(raw) == [] <==> forall k :: 0 <= k < |raw| ==> IsJsSpace(raw[k])
  {
    var i := LeadingSpaces(raw);
    if i < |raw| {
      TrimShape(raw);
      assert !IsJsSpace(raw[i]);
      assert Trim(raw) != [] by {
        var t := raw[i..];
        assert !IsJsSpace(t[0]);
        assert TrailingSpaces(t) < |t|;
      }
    }
  }

  predicate IsDigit(c: char) {
    '0' <= c <= '9'
  }

  /** `/^\d+$/`: one or more ASCII digits. */
  predicate AllDigits(q: string) {
    q != [] && forall i :: 0 <= i < |q| ==> IsDigit(q[i])
  }

  /** What the search handler does with a normalised query. */
  datatype SearchStep =
    | ReloadFirstPage
    | LookupById(id: string)
    | LookupByName(name: string)

  function Classify(q: string): (step: SearchStep)
    ensures step.ReloadFirstPage? <==> q == []
    ensures step.LookupById? ==> IsDigit(q[0])
  {
    if q == [] then ReloadFirstPage
    else if AllDigits(q) then LookupById(q)
    else LookupByName(q)
  }

  /** The step for a raw input: whitespace only goes back to the first page; a
      query of digits is looked up as an id; anything else is looked up as a
      name. The lookup always carries the normalised query. */
  lemma ClassifyInput(raw: string)
    ensures Classify(NormalizeQuery(raw)) == ReloadFirstPage <==>
      forall k :: 0 <= k < |raw| ==> IsJsSpace(raw[k])
    ensures Classify(NormalizeQuery(raw)).LookupById? <==>
      NormalizeQuery(raw) != [] && forall i :: 0 <= i < |NormalizeQuery(raw)| ==> IsDigit(NormalizeQuery(raw)[i])
    ensures !Classify(NormalizeQuery(raw)).ReloadFirstPage? ==>
      (if Classify(NormalizeQuery(raw)).LookupById? then Classify(NormalizeQuery(raw)).id
       else Classify(NormalizeQuery(raw)).name) == NormalizeQuery(raw)
  {
    EmptyQueryIsBlank(raw);
  }

  // ---------------------------------------------------------------------------
  // The fallback filter.

  predicate IsPrefix(q: string, s: string) {
    |q| <= |s| && s[..|q|] == q
  }

  /** `q` occurs in `s` starting at position `i`. */
  predicate OccursAt(s: string, q: string, i: int) {
    0 <= i <= |s| - |q| && s[i..i + |q|] == q
  }

  /** `s.includes(q)`. */
  function Includes(s: string, q: string): bool {
    IsPrefix(q, s) || (s != [] && Includes(s[1..], q))
  }

  /** `includes` finds `q` exactly when `q` occurs at some position of `s`. */
  lemma {:induction false} IncludesOccurs(s: string, q: string)
    ensures Includes(s, q) <==> exists i :: OccursAt(s, q, i)
  {
    if IsPrefix(q, s) {
      assert OccursAt(s, q, 0);
    } else if s == [] {
    } else {
      IncludesOccurs(s[1..], q);
      assert !OccursAt(s, q, 0);
      forall i | OccursAt(s[1..], q, i) ensures OccursAt(s, q, i + 1) {
        assert s[i + 1..i + 1 + |q|] == s[1..][i..i + |q|];
      }
      forall i | OccursAt(s, q, i) && i > 0 ensures OccursAt(s[1..], q, i - 1) {
        assert s[1..][i - 1..i - 1 + |q|] == s[i..i + |q|];
      }
    }
  }

  /** `items.forEach(it => it.style.display = name.includes(q) ? '' : 'none')`:
      `shown[i]` is whether the `i`-th item of the page stays visible. */
  method FilterPage(names: seq<string>, q: string, shown: array<bool>)
    requires shown.Length == |names|
    modifies shown
    ensures forall i :: 0 <= i < shown.Length ==> shown[i] == Includes(names[i], q)
  {
    var i := 0;
    while i < shown.Length
      invariant 0 <= i <= shown.Length
      invariant forall k :: 0 <= k < i ==> shown[k] == Includes(names[k], q)
    {
      shown[i] := Includes(names[i], q);
      i := i + 1;
    }
  }

  /** After the filter an item is visible exactly when its name contains the query
      at some position. */
  lemma FilterShowsMatches(names: seq<string>, q: string, shown: seq<bool>, i: nat)
    requires |shown| == |names| && i < |names|
    requires forall k :: 0 <= k < |shown| ==> shown[k] == Includes(names[k], q)
    ensures shown[i] <==> exists j :: OccursAt(names[i], q, j)
  {
    IncludesOccurs(names[i], q);
  }
}
