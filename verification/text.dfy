/**
 * The two list pipelines of run.mjs: the gift codes taken from the comma-separated `CODE`
 * setting (split, trim, drop empties, keep the first of duplicates; run.mjs:16-24) and the
 * account identifiers taken from the lines of the users file (trim, drop blanks and `#`
 * comments; run.mjs:41-44).
 */
module Text {

  /** The characters `String.prototype.trim` removes: ECMAScript WhiteSpace and LineTerminator. */
  predicate IsJsSpace(c: char) {
    c == '\t' || c == '\n' || c == '\U{B}' || c == '\U{C}' || c == '\r' || c == ' '
    || c == '\U{A0}' || c == '\U{1680}' || ('\U{2000}' <= c <= '\U{200A}')
    || c == '\U{2028}' || c == '\U{2029}' || c == '\U{202F}' || c == '\U{205F}'
    || c == '\U{3000}' || c == '\U{FEFF}'
  }

  /** The length of the whitespace run that opens `s`. */
  function LeadingSpaces(s: string): (n: nat)
    ensures n <= |s|
    ensures forall i :: 0 <= i < n ==> IsJsSpace(s[i])
    ensures n < |s| ==> !IsJsSpace(s[n])
  {
    if s == [] || !IsJsSpace(s[0]) then 0 else 1 + LeadingSpaces(s[1..])
  }

  /** The length of the whitespace run that closes `s`. */
  function TrailingSpaces(s: string): (n: nat)
    ensures n <= |s|
    ensures forall i :: |s| - n <= i < |s| ==> IsJsSpace(s[i])
    ensures n < |s| ==> !IsJsSpace(s[|s| - 1 - n])
  {
    if s == [] || !IsJsSpace(s[|s| - 1]) then 0 else 1 + TrailingSpaces(s[..|s| - 1])
  }

  /** `String.prototype.trim`. */
  function Trim(s: string): (r: string)
    ensures r == [] || (!IsJsSpace(r[0]) && !IsJsSpace(r[|r| - 1]))
    ensures r == [] <==> forall i :: 0 <= i < |s| ==> IsJsSpace(s[i])
    ensures LeadingSpaces(s) + |r| <= |s| && r == s[LeadingSpaces(s)..LeadingSpaces(s) + |r|]
    ensures forall i :: LeadingSpaces(s) + |r| <= i < |s| ==> IsJsSpace(s[i])
  {
    var lead := LeadingSpaces(s);
    if lead == |s| then []
    else
      var trail := TrailingSpaces(s);
      s[lead..|s| - trail]
  }

  /** A string without whitespace at either end is its own trim. */
  lemma {:induction false} TrimOfTrimmed(s: string)
    requires s == [] || (!IsJsSpace(s[0]) && !IsJsSpace(s[|s| - 1]))
    ensures Trim(s) == s
  {
    if s != [] {
      assert LeadingSpaces(s) == 0;
      assert TrailingSpaces(s) == 0;
    }
  }

  /** Trimming twice is trimming once. */
  lemma TrimIdempotent(s: string)
    ensures Trim(Trim(s)) == Trim(s)
  {
    TrimOfTrimmed(Trim(s));
  }

  /** `s.split(sep)` for a one-character separator: always at least one piece, "" giving [""]. */
  function Split(s: string, sep: char): (parts: seq<string>)
    ensures |parts| >= 1
    ensures forall k :: 0 <= k < |parts| ==> sep !in parts[k]
  {
    if s == [] then [""]
    else
      var rest := Split(s[1..], sep);
      if s[0] == sep then [""] + rest
      else [[s[0]] + rest[0]] + rest[1..]
  }

  /** `parts.join(sep)`. */
  function Join(parts: seq<string>, sep: char): string
    requires |parts| >= 1
  {
    if |parts| == 1 then parts[0] else parts[0] + [sep] + Join(parts[1..], sep)
  }

  /** Joining the pieces of a split gives back the string. */
  lemma {:induction false} JoinSplit(s: string, sep: char)
    ensures Join(Split(s, sep), sep) == s
  {
    if s != [] {
      var rest := Split(s[1..], sep);
      JoinSplit(s[1..], sep);
      if s[0] == sep {
        assert Split(s, sep)[1..] == rest;
      } else if |rest| == 1 {
        assert Join(Split(s, sep), sep) == [s[0]] + rest[0];
      } else {
        var parts := Split(s, sep);
        assert parts[1..] == rest[1..];
        assert Join(rest, sep) == rest[0] + [sep] + Join(rest[1..], sep);
        assert Join(parts, sep) == ([s[0]] + rest[0]) + [sep] + Join(rest[1..], sep);
      }
    }
  }

  /** Splitting a join of pieces that do not contain the separator gives back the pieces. */
  lemma {:induction false} SplitJoin(parts: seq<string>, sep: char)
    requires |parts| >= 1
    requires forall k :: 0 <= k < |parts| ==> sep !in parts[k]
    ensures Split(Join(parts, sep), sep) == parts
  {
    if |parts| == 1 {
      SplitPiece(parts[0], [], sep);
      assert parts[0] + [] == parts[0];
    } else {
      var tail := Join(parts[1..], sep);
      SplitJoin(parts[1..], sep);
      SplitPiece(parts[0], [sep] + tail, sep);
      assert ([sep] + tail)[1..] == tail;
      assert parts[0] + [sep] + tail == parts[0] + ([sep] + tail);
      assert [parts[0]] + parts[1..] == parts;
    }
  }

  /** Splitting at a separator splits both sides: `(a + sep + b).split(sep)` is `a`'s pieces, then `b`'s. */
  lemma {:induction false} SplitAppend(a: string, b: string, sep: char)
    ensures Split(a + [sep] + b, sep) == Split(a, sep) + Split(b, sep)
  {
    if a == [] {
      assert a + [sep] + b == [sep] + b;
      assert ([sep] + b)[1..] == b;
    } else {
      var ab := a + [sep] + b;
      assert ab[0] == a[0] && ab[1..] == a[1..] + [sep] + b;
      SplitAppend(a[1..], b, sep);
      var front, back := Split(a[1..], sep), Split(b, sep);
      var rest := Split(ab[1..], sep);
      if a[0] == sep {
        calc {
          Split(ab, sep);
          [""] + rest;
          [""] + (front + back);
          { AppendAssoc([""], front, back); }
          ([""] + front) + back;
          Split(a, sep) + back;
        }
      } else {
        assert rest[0] == front[0];
        assert rest[1..] == front[1..] + back;
        calc {
          Split(ab, sep);
          [[a[0]] + rest[0]] + rest[1..];
          [[a[0]] + front[0]] + (front[1..] + back);
          { AppendAssoc([[a[0]] + front[0]], front[1..], back); }
          ([[a[0]] + front[0]] + front[1..]) + back;
          Split(a, sep) + back;
        }
      }
    }
  }

  /** Concatenation of lists of strings is associative. */
  lemma AppendAssoc(x: seq<string>, y: seq<string>, z: seq<string>)
    ensures x + (y + z) == (x + y) + z
  {
  }

  /** Splitting `p + t` for a separator-free `p` prepends `p` to the first piece of `t`. */
  lemma {:induction false} SplitPiece(p: string, t: string, sep: char)
    requires sep !in p
    ensures t == [] ==> Split(p + t, sep) == [p]
    ensures t != [] && t[0] == sep ==> Split(p + t, sep) == [p] + Split(t[1..], sep)
  {
    if p == [] {
      assert p + t == t;
      if t != [] && t[0] == sep {
        assert Split(t, sep) == [""] + Split(t[1..], sep);
      }
    } else {
      SplitPiece(p[1..], t, sep);
      assert (p + t)[1..] == p[1..] + t;
      assert [p[0]] + p[1..] == p;
    }
  }

  /** `xs.map(f)`. */
  function Map<T, U>(f: T -> U, xs: seq<T>): (r: seq<U>)
    ensures |r| == |xs| && forall k :: 0 <= k < |xs| ==> r[k] == f(xs[k])
  {
    if xs == [] then [] else [f(xs[0])] + Map(f, xs[1..])
  }

  /** The map keeps order: mapping two blocks gives the two mapped blocks. */
  lemma {:induction false} MapAppend<T, U>(f: T -> U, a: seq<T>, b: seq<T>)
    ensures Map(f, a + b) == Map(f, a) + Map(f, b)
  {
    if a == [] {
      assert a + b == b;
    } else {
      var ab := a + b;
      assert ab[0] == a[0] && ab[1..] == a[1..] + b;
      MapAppend(f, a[1..], b);
      calc {
        Map(f, ab);
        [f(a[0])] + Map(f, a[1..] + b);
        [f(a[0])] + (Map(f, a[1..]) + Map(f, b));
        ([f(a[0])] + Map(f, a[1..])) + Map(f, b);
      }
    }
  }

  /** `xs.map((c) => c.trim())`. */
  function TrimAll(xs: seq<string>): (r: seq<string>)
    ensures |r| == |xs| && forall k :: 0 <= k < |xs| ==> r[k] == Trim(xs[k])
  {
    Map(Trim, xs)
  }

  /** Every string `TrimAll` gives is its own trim. */
  lemma TrimAllTrimmed(xs: seq<string>)
    ensures forall x :: x in TrimAll(xs) ==> Trim(x) == x
  {
    forall k | 0 <= k < |xs|
      ensures Trim(TrimAll(xs)[k]) == TrimAll(xs)[k]
    {
      TrimIdempotent(xs[k]);
    }
  }

  /** `xs.filter(Boolean)`: the non-empty strings, in order. */
  function NonEmpty(xs: seq<string>): (r: seq<string>)
    ensures forall x :: x in r <==> x in xs && x != ""
    ensures |r| <= |xs|
  {
    if xs == [] then [] else (if xs[0] == "" then [] else [xs[0]]) + NonEmpty(xs[1..])
  }

  /** The filter keeps order: the survivors of two blocks follow each other. */
  lemma {:induction false} NonEmptyAppend(a: seq<string>, b: seq<string>)
    ensures NonEmpty(a + b) == NonEmpty(a) + NonEmpty(b)
  {
    if a == [] {
      assert a + b == b;
    } else {
      var ab := a + b;
      assert ab[0] == a[0] && ab[1..] == a[1..] + b;
      NonEmptyAppend(a[1..], b);
      var head := if a[0] == "" then [] else [a[0]];
      assert NonEmpty(ab) == head + NonEmpty(a[1..] + b);
    }
  }

  /** The map keeps order: trimming two blocks gives the two trimmed blocks. */
  lemma TrimAllAppend(a: seq<string>, b: seq<string>)
    ensures TrimAll(a + b) == TrimAll(a) + TrimAll(b)
  {
    MapAppend(Trim, a, b);
  }

  predicate NoDuplicates(xs: seq<string>) {
    forall i, j :: 0 <= i < j < |xs| ==> xs[i] != xs[j]
  }

  /** `Array.from(new Set(xs))`: each value once, at the place of its first occurrence. */
  function Dedup(xs: seq<string>): (r: seq<string>)
    ensures NoDuplicates(r)
    ensures forall x :: x in r <==> x in xs
    ensures |r| <= |xs|
  {
    if xs == [] then []
    else
      var p := Dedup(xs[..|xs| - 1]);
      var x := xs[|xs| - 1];
      assert forall y :: y in xs <==> y in xs[..|xs| - 1] || y == x;
      if x in p then p else p + [x]
  }

  /** Values already placed by `Dedup` keep their place whatever follows them. */
  lemma {:induction false} DedupPrefix(xs: seq<string>, ys: seq<string>)
    ensures Dedup(xs) <= Dedup(xs + ys)
    decreases |ys|
  {
    if ys != [] {
      var front := ys[..|ys| - 1];
      DedupPrefix(xs, front);
      assert (xs + ys)[..|xs + ys| - 1] == xs + front;
    } else {
      assert xs + ys == xs;
    }
  }

  /** A sequence without duplicates is its own `Dedup`. */
  lemma {:induction false} DedupOfDistinct(xs: seq<string>)
    requires NoDuplicates(xs)
    ensures Dedup(xs) == xs
  {
    if xs != [] {
      var front := xs[..|xs| - 1];
      DedupOfDistinct(front);
      assert xs[|xs| - 1] !in front;
    }
  }

  /** The `GIFT_CODES` list built from the `CODE` setting (run.mjs:16-24). */
  function GiftCodesFrom(setting: string): (codes: seq<string>)
    ensures NoDuplicates(codes)
  {
    Dedup(NonEmpty(TrimAll(Split(setting, ','))))
  }

  /**
   * The gift codes are exactly the non-empty trimmed pieces of the setting, each listed once,
   * trimmed and non-empty.
   */
  lemma GiftCodesOfSetting(setting: string)
    ensures forall c :: c in GiftCodesFrom(setting) <==> c != "" && c in TrimAll(Split(setting, ','))
    ensures forall k :: 0 <= k < |GiftCodesFrom(setting)| ==>
      GiftCodesFrom(setting)[k] != "" && Trim(GiftCodesFrom(setting)[k]) == GiftCodesFrom(setting)[k]
  {
    TrimAllTrimmed(Split(setting, ','));
    var codes := GiftCodesFrom(setting);
    assert forall k :: 0 <= k < |codes| ==> codes[k] in codes;
  }

  /**
   * `GIFT_CODES` follows the setting: the codes of a leading part of `CODE` (up to a comma)
   * come first and in the same order, whatever follows; a later repeat never moves them.
   */
  lemma GiftCodesKeepOrder(a: string, b: string)
    ensures GiftCodesFrom(a) <= GiftCodesFrom(a + [','] + b)
  {
    SplitAppend(a, b, ',');
    var pa, pb := Split(a, ','), Split(b, ',');
    TrimAllAppend(pa, pb);
    NonEmptyAppend(TrimAll(pa), TrimAll(pb));
    DedupPrefix(NonEmpty(TrimAll(pa)), NonEmpty(TrimAll(pb)));
  }

  /** A users-file line that names an account once trimmed: neither blank nor a `#` comment. */
  predicate IsAccountLine(line: string) {
    var t := Trim(line);
    t != "" && t[0] != '#'
  }

  /** The account identifiers of the users file, in file order (run.mjs:41-44). */
  function UserIdsFrom(lines: seq<string>): (ids: seq<string>)
    ensures |ids| <= |lines|
  {
    if lines == [] then []
    else if IsAccountLine(lines[0]) then [Trim(lines[0])] + UserIdsFrom(lines[1..])
    else UserIdsFrom(lines[1..])
  }

  /** Every identifier is trimmed, non-empty and not a `#` comment. */
  lemma {:induction false} UserIdsAreClean(lines: seq<string>)
    ensures forall id :: id in UserIdsFrom(lines) ==> id != "" && id[0] != '#' && Trim(id) == id
  {
    if lines != [] {
      UserIdsAreClean(lines[1..]);
      TrimIdempotent(lines[0]);
    }
  }

  /** The identifiers are exactly the trimmed account lines. */
  lemma {:induction false} UserIdsOfLines(lines: seq<string>)
    ensures forall id :: id in UserIdsFrom(lines) <==>
      exists k :: 0 <= k < |lines| && IsAccountLine(lines[k]) && id == Trim(lines[k])
  {
    if lines != [] {
      var rest := UserIdsFrom(lines[1..]);
      UserIdsOfLines(lines[1..]);
      assert forall k :: 1 <= k < |lines| ==> lines[k] == lines[1..][k - 1];
      forall id | exists k :: 0 <= k < |lines| && IsAccountLine(lines[k]) && id == Trim(lines[k])
        ensures id in UserIdsFrom(lines)
      {
        var k :| 0 <= k < |lines| && IsAccountLine(lines[k]) && id == Trim(lines[k]);
        if k > 0 {
          assert IsAccountLine(lines[1..][k - 1]) && id == Trim(lines[1..][k - 1]);
        }
      }
    }
  }

  /** The filter keeps file order: the identifiers of two blocks of lines follow each other. */
  lemma {:induction false} UserIdsKeepOrder(a: seq<string>, b: seq<string>)
    ensures UserIdsFrom(a + b) == UserIdsFrom(a) + UserIdsFrom(b)
  {
    if a != [] {
      var ab := a + b;
      assert ab[0] == a[0] && ab[1..] == a[1..] + b;
      UserIdsKeepOrder(a[1..], b);
      var head := if IsAccountLine(a[0]) then [Trim(a[0])] else [];
      assert UserIdsFrom(a) == head + UserIdsFrom(a[1..]);
      assert UserIdsFrom(ab) == head + UserIdsFrom(a[1..] + b);
    } else {
      assert a + b == b;
    }
  }
}
