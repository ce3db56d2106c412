/** The Java `String` operations the ETL code relies on, over `seq<char>`. */
module Text {

  /** `String.trim` removes every leading and trailing character whose code is at most U+0020. */
  predicate IsTrimmed(c: char) {
    c <= ' '
  }

  /** True when neither end of `s` is a character `String.trim` would remove. */
  predicate IsTrimFixed(s: string) {
    s == [] || (!IsTrimmed(s[0]) && !IsTrimmed(s[|s| - 1]))
  }

  /** True when `String.trim` leaves nothing of `s`, i.e. `s.trim().isEmpty()`. */
  predicate IsBlank(s: string) {
    forall k :: 0 <= k < |s| ==> IsTrimmed(s[k])
  }

  function TrimLeft(s: string): (r: string)
    ensures |r| <= |s| && r == s[|s| - |r|..]
    ensures forall k :: 0 <= k < |s| - |r| ==> IsTrimmed(s[k])
    ensures r == [] || !IsTrimmed(r[0])
  {
    if s != [] && IsTrimmed(s[0]) then TrimLeft(s[1..]) else s
  }

  function TrimRight(s: string): (r: string)
    ensures |r| <= |s| && r == s[..|r|]
    ensures forall k :: |r| <= k < |s| ==> IsTrimmed(s[k])
    ensures r == [] || !IsTrimmed(r[|r| - 1])
  {
    if s != [] && IsTrimmed(s[|s| - 1]) then TrimRight(s[..|s| - 1]) else s
  }

  /** Java `String.trim`. */
  function Trim(s: string): (r: string)
    ensures IsTrimFixed(r)
    ensures r == [] <==> IsBlank(s)
    ensures IsTrimFixed(s) ==> r == s
    ensures |r| <= |s|
  {
    var left := TrimLeft(s);
    var r := TrimRight(left);
    r
  }

  lemma {:induction false} TrimIdempotent(s: string)
    ensures Trim(Trim(s)) == Trim(s)
  {
  }

  /** Java `String.toUpperCase` restricted to ASCII letters. */
  function UpperChar(c: char): (u: char)
    ensures ('a' <= c <= 'z') ==> 'A' <= u <= 'Z' && u as int == c as int - 32
    ensures !('a' <= c <= 'z') ==> u == c
  {
    if 'a' <= c <= 'z' then (c as int - 32) as char else c
  }

  function ToUpper(s: string): (r: string)
    ensures |r| == |s|
    ensures forall k :: 0 <= k < |s| ==> r[k] == UpperChar(s[k])
  {
    seq(|s|, k requires 0 <= k < |s| => UpperChar(s[k]))
  }

  /** Upper-casing is idempotent and leaves no ASCII lower-case letter behind. */
  lemma ToUpperIdempotent(s: string)
    ensures ToUpper(ToUpper(s)) == ToUpper(s)
    ensures forall k :: 0 <= k < |s| ==> !('a' <= ToUpper(s)[k] <= 'z')
  {
  }

  /** Upper-casing keeps a comma-free, trim-fixed field comma-free and trim-fixed. */
  lemma ToUpperKeepsFieldShape(s: string, d: char)
    requires !('a' <= d <= 'z') && !('A' <= d <= 'Z')
    ensures d !in s ==> d !in ToUpper(s)
    ensures IsTrimFixed(s) ==> IsTrimFixed(ToUpper(s))
  {
    if d in ToUpper(s) {
      var k :| 0 <= k < |s| && ToUpper(s)[k] == d;
      assert s[k] == d;
    }
  }

  // ---------------------------------------------------------------------------
  // Splitting and joining on a one-character delimiter

  /** Joins the pieces with the delimiter between them, like `String.join`. */
  function Join(pieces: seq<string>, d: char): string
  {
    if pieces == [] then []
    else if |pieces| == 1 then pieces[0]
    else pieces[0] + [d] + Join(pieces[1..], d)
  }

  /** Every piece between delimiters, the empty ones included: n delimiters give n + 1 pieces. */
  function SplitAll(s: string, d: char): (pieces: seq<string>)
    ensures |pieces| >= 1
    ensures forall k :: 0 <= k < |pieces| ==> d !in pieces[k]
    ensures Join(pieces, d) == s
  {
    if s == [] then [[]]
    else
      var rest := SplitAll(s[1..], d);
      if s[0] == d then
        [[]] + rest
      else
        var pieces := [[s[0]] + rest[0]] + rest[1..];
        assert Join(pieces, d) == s by {
          if |rest| > 1 {
            assert pieces[1..] == rest[1..];
            assert Join(rest, d) == rest[0] + [d] + Join(rest[1..], d);
          }
        }
        pieces
  }

  /** Drops the empty pieces at the end, as `String.split` with limit 0 does. */
  function DropTrailingEmpty(pieces: seq<string>): (r: seq<string>)
    ensures |r| <= |pieces| && r == pieces[..|r|]
    ensures r == [] || r[|r| - 1] != []
    ensures forall k :: |r| <= k < |pieces| ==> pieces[k] == []
  {
    if pieces != [] && pieces[|pieces| - 1] == [] then DropTrailingEmpty(pieces[..|pieces| - 1])
    else pieces
  }

  /** Java `s.split(d)` for a delimiter that is not a regular-expression metacharacter. */
  function Split(s: string, d: char): (fields: seq<string>)
    ensures forall k :: 0 <= k < |fields| ==> d !in fields[k]
  {
    if d !in s then [s] else DropTrailingEmpty(SplitAll(s, d))
  }

  /** `split` keeps a string without the delimiter whole and drops trailing empty fields otherwise. */
  lemma SplitShape(s: string, d: char)
    ensures d !in s ==> Split(s, d) == [s]
    ensures d in s ==> Split(s, d) == [] || Split(s, d)[|Split(s, d)| - 1] != []
    ensures d in s ==> Split(s, d) == SplitAll(s, d)[..|Split(s, d)|]
  {
  }

  lemma {:induction false} SplitAllNoDelimiter(a: string, d: char)
    requires d !in a
    ensures SplitAll(a, d) == [a]
  {
    if a != [] {
      SplitAllNoDelimiter(a[1..], d);
    }
  }

  lemma {:induction false} SplitAllFirstPiece(a: string, t: string, d: char)
    requires d !in a
    ensures SplitAll(a + [d] + t, d) == [a] + SplitAll(t, d)
  {
    if a == [] {
      assert a + [d] + t == [d] + t;
      assert ([d] + t)[1..] == t;
    } else {
      assert (a + [d] + t)[1..] == a[1..] + [d] + t;
      SplitAllFirstPiece(a[1..], t, d);
      assert [a[0]] + a[1..] == a;
    }
  }

  /** Splitting a join of delimiter-free pieces gives the pieces back. */
  lemma {:induction false} SplitAllJoin(pieces: seq<string>, d: char)
    requires |pieces| >= 1
    requires forall k :: 0 <= k < |pieces| ==> d !in pieces[k]
    ensures SplitAll(Join(pieces, d), d) == pieces
  {
    if |pieces| == 1 {
      SplitAllNoDelimiter(pieces[0], d);
    } else {
      SplitAllJoin(pieces[1..], d);
      SplitAllFirstPiece(pieces[0], Join(pieces[1..], d), d);
    }
  }

  /** The delimiter occurs in a join exactly when there are at least two pieces. */
  lemma {:induction false} JoinHasDelimiter(pieces: seq<string>, d: char)
    requires |pieces| >= 1
    requires forall k :: 0 <= k < |pieces| ==> d !in pieces[k]
    ensures d in Join(pieces, d) <==> |pieces| > 1
  {
    if |pieces| > 1 {
      assert Join(pieces, d)[|pieces[0]|] == d;
    }
  }

  /** Round trip: `split` undoes `String.join` when no field holds the delimiter and the last is not empty. */
  lemma SplitJoin(fields: seq<string>, d: char)
    requires |fields| >= 1 && fields[|fields| - 1] != []
    requires forall k :: 0 <= k < |fields| ==> d !in fields[k]
    ensures Split(Join(fields, d), d) == fields
  {
    JoinHasDelimiter(fields, d);
    if |fields| > 1 {
      SplitAllJoin(fields, d);
    }
  }

  /** A join of trim-fixed fields whose last one is not empty is non-blank and trim-fixed. */
  lemma JoinTrimFixed(fields: seq<string>, d: char)
    requires !IsTrimmed(d)
    requires |fields| >= 1 && fields[|fields| - 1] != []
    requires forall k :: 0 <= k < |fields| ==> IsTrimFixed(fields[k])
    ensures IsTrimFixed(Join(fields, d)) && Join(fields, d) != []
  {
    JoinLastChar(fields, d);
    if |fields| > 1 && fields[0] == [] {
      assert Join(fields, d)[0] == d;
    }
  }

  lemma {:induction false} JoinLastChar(fields: seq<string>, d: char)
    requires |fields| >= 1 && fields[|fields| - 1] != []
    ensures Join(fields, d) != []
    ensures Join(fields, d)[|Join(fields, d)| - 1] == fields[|fields| - 1][|fields[|fields| - 1]| - 1]
  {
    if |fields| > 1 {
      JoinLastChar(fields[1..], d);
    }
  }

  /** Trimming every field, as the Java loops `columns[i] = columns[i].trim()` do. */
  function TrimAll(fields: seq<string>): (r: seq<string>)
    ensures |r| == |fields|
    ensures forall k :: 0 <= k < |fields| ==> r[k] == Trim(fields[k])
  {
    seq(|fields|, k requires 0 <= k < |fields| => Trim(fields[k]))
  }

  /** Trimming fields that are already trimmed changes nothing. */
  lemma TrimAllFixed(fields: seq<string>)
    requires forall k :: 0 <= k < |fields| ==> IsTrimFixed(fields[k])
    ensures TrimAll(fields) == fields
  {
  }

  /** A line made of clean fields, the last one not empty, is split and trimmed back into those fields. */
  lemma ColumnsJoin(fields: seq<string>)
    requires |fields| >= 1 && fields[|fields| - 1] != []
    requires forall k :: 0 <= k < |fields| ==> IsTrimFixed(fields[k]) && ',' !in fields[k]
    ensures Columns(Join(fields, ',')) == fields
  {
    SplitJoin(fields, ',');
    TrimAllFixed(fields);
  }

  /** The columns of a CSV line: split on commas, then each one trimmed. */
  function Columns(line: string): (columns: seq<string>)
    ensures forall k :: 0 <= k < |columns| ==> IsTrimFixed(columns[k]) && ',' !in columns[k]
  {
    TrimAll(Split(line, ','))
  }

  /** Java's in-place trimming loop over a `String[]`. */
  method TrimFields(columns: array<string>)
    modifies columns
    ensures columns[..] == TrimAll(old(columns[..]))
  {
    ghost var fields := columns[..];
    for i := 0 to columns.Length
      invariant columns[..] == TrimmedUpTo(fields, i)
    {
      TrimmedUpToStep(fields, i);
      columns[i] := Trim(columns[i]);
    }
    assert fields[..columns.Length] == fields;
  }

  /** The fields after the trimming loop has passed the first `i` of them. */
  ghost function TrimmedUpTo(fields: seq<string>, i: nat): (r: seq<string>)
    requires i <= |fields|
    ensures |r| == |fields|
  {
    TrimAll(fields[..i]) + fields[i..]
  }

  /** One step of the trimming loop replaces field `i` by its trimmed form. */
  lemma TrimmedUpToStep(fields: seq<string>, i: nat)
    requires i < |fields|
    ensures TrimmedUpTo(fields, i)[i] == fields[i]
    ensures TrimmedUpTo(fields, i + 1) == TrimmedUpTo(fields, i)[i := Trim(fields[i])]
  {
    var before := TrimmedUpTo(fields, i);
    var after := TrimmedUpTo(fields, i + 1);
    forall k | 0 <= k < |fields|
      ensures after[k] == before[i := Trim(fields[i])][k]
    {
      if k < i {
        assert after[k] == Trim(fields[k]) == before[k];
      } else if k > i {
        assert after[k] == fields[k] == before[k];
      }
    }
  }

  /** `line.split(",")` into a fresh `String[]`, then the trimming loop over it. */
  method SplitAndTrim(line: string) returns (columns: array<string>)
    ensures fresh(columns)
    ensures columns[..] == Columns(line)
  {
    var pieces := Split(line, ',');
    columns := new string[|pieces|](k requires 0 <= k < |pieces| => pieces[k]);
    assert columns[..] == pieces;
    TrimFields(columns);
  }

  // ---------------------------------------------------------------------------
  // Decimal digits

  predicate IsDigit(c: char) {
    '0' <= c <= '9'
  }

  predicate AllDigits(s: string) {
    forall k :: 0 <= k < |s| ==> IsDigit(s[k])
  }

  function DigitChar(n: nat): (c: char)
    requires n < 10
    ensures IsDigit(c) && c as int - '0' as int == n
  {
    ('0' as int + n) as char
  }

  function DigitValue(c: char): (n: nat)
    requires IsDigit(c)
    ensures n < 10 && DigitChar(n) == c
  {
    c as int - '0' as int
  }

  /** The value of a string of decimal digits, most significant first; 0 for the empty string. */
  function DigitsValue(s: string): nat
    requires AllDigits(s)
  {
    if s == [] then 0 else DigitsValue(s[..|s| - 1]) * 10 + DigitValue(s[|s| - 1])
  }

  /** The decimal representation of `n`, as Java prints an `int`. */
  function NatToString(n: nat): (s: string)
    ensures s != [] && AllDigits(s)
  {
    if n < 10 then [DigitChar(n)] else NatToString(n / 10) + [DigitChar(n % 10)]
  }

  function IntToString(i: int): (s: string)
    ensures s != [] && (i < 0 <==> s[0] == '-')
  {
    if i < 0 then "-" + NatToString(-i) else NatToString(i)
  }

  /** Round trip: reading back the digits printed for `n` gives `n`. */
  lemma {:induction false} NatToStringValue(n: nat)
    ensures DigitsValue(NatToString(n)) == n
  {
    if n >= 10 {
      NatToStringValue(n / 10);
      var s := NatToString(n);
      assert s[..|s| - 1] == NatToString(n / 10);
    }
  }

  lemma NatToStringInjective(m: nat, n: nat)
    ensures NatToString(m) == NatToString(n) ==> m == n
  {
    NatToStringValue(m);
    NatToStringValue(n);
  }
}
