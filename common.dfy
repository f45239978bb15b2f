/** Values and string operations shared by the CSV importer and the store:
    JavaScript's `undefined`/`null` as Option, thrown errors as Result,
    String.prototype.toLowerCase / trim / split / includes, and calendar dates. */
module Common {

  /** `None` stands for JavaScript's `undefined` (or `null` where the schema
      allows it). */
  datatype Option<T> = None | Some(value: T) {
    function GetOr(default: T): T {
      match this
      case Some(v) => v
      case None => default
    }
  }

  /** A result or the message of the `Error` the source throws. */
  datatype Result<T> = Ok(value: T) | Err(message: string)

  // ---------------------------------------------------------------------------
  // Case folding

  /** toLowerCase restricted to the ASCII letters. */
  function LowerChar(c: char): char {
    if 'A' <= c <= 'Z' then (c as int + 32) as char else c
  }

  function ToLower(s: string): (r: string)
    ensures |r| == |s|
    ensures forall i :: 0 <= i < |s| ==> r[i] == LowerChar(s[i])
  {
    if s == [] then [] else [LowerChar(s[0])] + ToLower(s[1..])
  }

  /** Folding twice changes nothing more than folding once. */
  lemma ToLowerIdempotent(s: string)
    ensures ToLower(ToLower(s)) == ToLower(s)
  {
    assert forall i :: 0 <= i < |s| ==> LowerChar(LowerChar(s[i])) == LowerChar(s[i]);
  }

  /** `a.toLowerCase() === b.toLowerCase()` */
  predicate EqualsIgnoreCase(a: string, b: string) {
    ToLower(a) == ToLower(b)
  }

  // ---------------------------------------------------------------------------
  // trim()

  /** The characters String.prototype.trim removes: WhiteSpace (TAB, VT, FF,
      SP, NBSP, ZWNBSP and the Zs space separators) and LineTerminator
      (LF, CR, LS, PS). */
  predicate IsWhitespace(c: char) {
    c == '\t' || c == '\U{000B}' || c == '\U{000C}' || c == ' ' || c == '\U{00A0}'
    || c == '\U{FEFF}' || c == '\U{1680}' || ('\U{2000}' <= c <= '\U{200A}')
    || c == '\U{202F}' || c == '\U{205F}' || c == '\U{3000}'
    || c == '\n' || c == '\r' || c == '\U{2028}' || c == '\U{2029}'
  }

  function TrimStart(s: string): (r: string)
    ensures |r| <= |s| && r == s[|s| - |r|..]
    ensures r != [] ==> !IsWhitespace(r[0])
    ensures forall i :: 0 <= i < |s| - |r| ==> IsWhitespace(s[i])
  {
    if s != [] && IsWhitespace(s[0]) then TrimStart(s[1..]) else s
  }

  function TrimEnd(s: string): (r: string)
    ensures |r| <= |s| && r == s[..|r|]
    ensures r != [] ==> !IsWhitespace(r[|r| - 1])
    ensures forall i :: |r| <= i < |s| ==> IsWhitespace(s[i])
  {
    if s != [] && IsWhitespace(s[|s| - 1]) then TrimEnd(s[..|s| - 1]) else s
  }

  /** `sub` occurs in `s` starting at index i. */
  predicate OccursAt(s: string, sub: string, i: int) {
    0 <= i <= |s| - |sub| && s[i..i + |sub|] == sub
  }

  /** `s.trim()`: the longest infix with no whitespace at either end. */
  function Trim(s: string): (r: string)
    ensures r == [] || (!IsWhitespace(r[0]) && !IsWhitespace(r[|r| - 1]))
  {
    TrimEnd(TrimStart(s))
  }

  /** The trimmed string is a piece of the original. */
  lemma TrimInfix(s: string)
    ensures exists i :: OccursAt(s, Trim(s), i)
  {
    var t := TrimStart(s);
    assert OccursAt(s, Trim(s), |s| - |t|);
  }

  /** A string trims to "" exactly when it is all whitespace; this is the
      blank-line test of the CSV reader. */
  lemma TrimEmptyIff(s: string)
    ensures Trim(s) == [] <==> forall i :: 0 <= i < |s| ==> IsWhitespace(s[i])
  {
    var t := TrimStart(s);
    if Trim(s) == [] {
      assert t == [];
    }
  }

  // ---------------------------------------------------------------------------
  // split()

  /** `s.split(sep)` for a one-character separator, or a one-character
      class such as /[\/\-\.]/ when `seps` has several members. */
  function Split(s: string, seps: set<char>): (r: seq<string>)
    ensures |r| >= 1
  {
    if s == [] then [""]
    else if s[0] in seps then [""] + Split(s[1..], seps)
    else
      var rest := Split(s[1..], seps);
      [[s[0]] + rest[0]] + rest[1..]
  }

  function Join(parts: seq<string>, sep: char): string {
    if parts == [] then ""
    else if |parts| == 1 then parts[0]
    else parts[0] + [sep] + Join(parts[1..], sep)
  }

  /** The number of characters of `s` that are in `seps`. */
  function CountOf(s: string, seps: set<char>): nat {
    if s == [] then 0 else (if s[0] in seps then 1 else 0) + CountOf(s[1..], seps)
  }

  /** No piece of a split holds a separator. */
  lemma {:induction false} SplitPiecesFree(s: string, seps: set<char>)
    ensures forall k, j :: 0 <= k < |Split(s, seps)| && 0 <= j < |Split(s, seps)[k]| ==>
      Split(s, seps)[k][j] !in seps
  {
    if s != [] {
      SplitPiecesFree(s[1..], seps);
    }
  }

  /** Splitting yields one piece more than there are separators. */
  lemma {:induction false} SplitCount(s: string, seps: set<char>)
    ensures |Split(s, seps)| == CountOf(s, seps) + 1
  {
    if s != [] {
      SplitCount(s[1..], seps);
    }
  }

  /** Joining the pieces with the separator gives the text back. */
  lemma {:induction false} JoinSplit(s: string, sep: char)
    ensures Join(Split(s, {sep}), sep) == s
  {
    if s != [] {
      var rest := Split(s[1..], {sep});
      JoinSplit(s[1..], sep);
      if s[0] != sep {
        assert Split(s, {sep}) == [[s[0]] + rest[0]] + rest[1..];
        if |rest| == 1 {
          assert Join(rest, sep) == rest[0];
        } else {
          assert Join(rest, sep) == rest[0] + [sep] + Join(rest[1..], sep);
          assert Join(Split(s, {sep}), sep) == [s[0]] + rest[0] + [sep] + Join(rest[1..], sep);
        }
      }
    }
  }

  // ---------------------------------------------------------------------------
  // includes()

  /** `s.includes(sub)`, by scanning from the left. */
  predicate Contains(s: string, sub: string)
    decreases |s|
  {
    sub <= s || (s != [] && Contains(s[1..], sub))
  }

  /** An occurrence in the tail is an occurrence one further along. */
  lemma OccursShift(s: string, sub: string, i: nat)
    requires s != []
    ensures OccursAt(s[1..], sub, i) <==> OccursAt(s, sub, i + 1)
  {
    if 0 <= i <= |s| - 1 - |sub| {
      assert s[1..][i..i + |sub|] == s[i + 1..i + 1 + |sub|];
    }
  }

  /** The scan agrees with the definition: `sub` occurs at some index. */
  lemma {:induction false} ContainsIff(s: string, sub: string)
    ensures Contains(s, sub) <==> exists i :: OccursAt(s, sub, i)
  {
    if sub <= s {
      assert OccursAt(s, sub, 0);
    } else if s == [] {
      assert forall i :: !OccursAt(s, sub, i);
    } else {
      ContainsIff(s[1..], sub);
      if exists i :: OccursAt(s, sub, i) {
        var i :| OccursAt(s, sub, i);
        assert i != 0;
        OccursShift(s, sub, i - 1);
        assert OccursAt(s[1..], sub, i - 1);
      }
      if Contains(s[1..], sub) {
        var i :| OccursAt(s[1..], sub, i);
        OccursShift(s, sub, i);
        assert OccursAt(s, sub, i + 1);
      }
    }
  }

  // ---------------------------------------------------------------------------
  // Dates

  /** A calendar date; the strings "YYYY-MM-DD" the app stores order like
      these triples. */
  datatype Date = Date(year: int, month: int, day: int)

  predicate DateLe(a: Date, b: Date) {
    a.year < b.year
    || (a.year == b.year && (a.month < b.month || (a.month == b.month && a.day <= b.day)))
  }

  /** DateLe is a total order. */
  lemma DateLeTotalOrder(a: Date, b: Date, c: Date)
    ensures DateLe(a, b) || DateLe(b, a)
    ensures DateLe(a, b) && DateLe(b, a) ==> a == b
    ensures DateLe(a, b) && DateLe(b, c) ==> DateLe(a, c)
  {
  }

  predicate IsLeapYear(y: int) {
    (y % 4 == 0 && y % 100 != 0) || y % 400 == 0
  }

  /** The day of `new Date(y, m, 0)` for the month after m: the month's last day. */
  function DaysInMonth(year: int, month: int): int {
    if month == 2 then (if IsLeapYear(year) then 29 else 28)
    else if month == 4 || month == 6 || month == 9 || month == 11 then 30
    else 31
  }

  /** Days since 1970-01-01 of a proleptic Gregorian date. */
  function DaysFromCivil(d: Date): int {
    var y := if d.month <= 2 then d.year - 1 else d.year;
    var era := y / 400;
    var yoe := y - era * 400;
    var mp := (d.month + 9) % 12;
    var doy := (153 * mp + 2) / 5 + d.day - 1;
    var doe := yoe * 365 + yoe / 4 - yoe / 100 + doy;
    era * 146097 + doe - 719468
  }

  const MsPerDay: int := 86400000

  /** `new Date("YYYY-MM-DD").getTime()`: midnight UTC of that day. */
  function DateMs(d: Date): int {
    DaysFromCivil(d) * MsPerDay
  }
}
