/** String helpers with Python's meaning: `str.strip`, `str.lower`,
    `str.replace(c, "")`, `str.split(",")` and `re.sub(r'\s+', ' ', s)`,
    restricted to ASCII (see README). */
module Text {
  import opened Seqs

  /** The ASCII characters `str.isspace` accepts, which `str.strip()` and
      the regular-expression class `\s` treat as whitespace: space, tab,
      newline, vertical tab, form feed, carriage return, and the four
      separators U+001C to U+001F. */
  predicate IsSpace(c: char) {
    c == ' ' || ('\t' <= c <= '\r') || ('\U{1C}' <= c <= '\U{1F}')
  }

  predicate AllSpace(s: string) {
    forall i :: 0 <= i < |s| ==> IsSpace(s[i])
  }

  /** `s` with its leading whitespace removed (`str.lstrip()`). */
  function TrimLeft(s: string): (r: string)
    ensures |r| <= |s|
    ensures r == [] || !IsSpace(r[0])
  {
    if s != [] && IsSpace(s[0]) then TrimLeft(s[1..]) else s
  }

  /** `TrimLeft` cuts a prefix of whitespace only. */
  lemma {:induction false} TrimLeftCutsSpace(s: string)
    ensures TrimLeft(s) == s[|s| - |TrimLeft(s)|..]
    ensures AllSpace(s[..|s| - |TrimLeft(s)|])
  {
    if s != [] && IsSpace(s[0]) {
      TrimLeftCutsSpace(s[1..]);
    }
  }

  /** `s` with its trailing whitespace removed (`str.rstrip()`). */
  function TrimRight(s: string): (r: string)
    ensures |r| <= |s|
    ensures r == [] || !IsSpace(r[|r| - 1])
  {
    if s != [] && IsSpace(s[|s| - 1]) then TrimRight(s[..|s| - 1]) else s
  }

  /** `TrimRight` cuts a suffix of whitespace only. */
  lemma {:induction false} TrimRightCutsSpace(s: string)
    ensures TrimRight(s) == s[..|TrimRight(s)|]
    ensures AllSpace(s[|TrimRight(s)|..])
  {
    if s != [] && IsSpace(s[|s| - 1]) {
      TrimRightCutsSpace(s[..|s| - 1]);
    }
  }

  /** `str.strip()`: `s` without its leading and trailing whitespace. */
  function Strip(s: string): (r: string)
    ensures |r| <= |s|
    ensures r == [] || (!IsSpace(r[0]) && !IsSpace(r[|r| - 1]))
  {
    TrimRightCutsSpace(TrimLeft(s));
    TrimRight(TrimLeft(s))
  }

  /** What `Strip` keeps is a contiguous piece of `s`, and only whitespace is cut away. */
  lemma StripIsSlice(s: string) returns (i: nat)
    ensures i + |Strip(s)| <= |s| && Strip(s) == s[i..i + |Strip(s)|]
    ensures AllSpace(s[..i]) && AllSpace(s[i + |Strip(s)|..])
  {
    var l := TrimLeft(s);
    var r := TrimRight(l);
    TrimLeftCutsSpace(s);
    TrimRightCutsSpace(l);
    i := |s| - |l|;
    assert r == s[i..i + |r|];
    assert s[i + |r|..] == l[|r|..];
  }

  /** A string without surrounding whitespace is left alone by `Strip`. */
  lemma StripStripped(s: string)
    requires s == [] || (!IsSpace(s[0]) && !IsSpace(s[|s| - 1]))
    ensures Strip(s) == s
  {
  }

  /** `Strip` is idempotent. */
  lemma StripIdempotent(s: string)
    ensures Strip(Strip(s)) == Strip(s)
  {
    StripStripped(Strip(s));
  }

  /** A whitespace-only string strips to the empty string, and only such a string does. */
  lemma {:induction false} StripEmpty(s: string)
    ensures Strip(s) == [] <==> AllSpace(s)
  {
    if AllSpace(s) {
      AllSpaceTrimLeft(s);
    } else {
      var i := StripIsSlice(s);
    }
  }

  lemma {:induction false} AllSpaceTrimLeft(s: string)
    requires AllSpace(s)
    ensures TrimLeft(s) == []
  {
    if s != [] {
      AllSpaceTrimLeft(s[1..]);
    }
  }

  function LowerChar(c: char): (d: char)
    ensures !('A' <= d <= 'Z')
    ensures IsSpace(d) == IsSpace(c)
    ensures 'A' <= c <= 'Z' ==> d == (c as int - 'A' as int + 'a' as int) as char
    ensures !('A' <= c <= 'Z') ==> d == c
  {
    if 'A' <= c <= 'Z' then (c as int - 'A' as int + 'a' as int) as char else c
  }

  /** A string without upper-case letters is its own lower case. */
  lemma LowerUnchanged(s: string)
    requires forall i :: 0 <= i < |s| ==> !('A' <= s[i] <= 'Z')
    ensures Lower(s) == s
  {
  }

  /** `str.lower()` on ASCII letters; every other character is kept. */
  function Lower(s: string): (r: string)
    ensures |r| == |s|
    ensures forall i :: 0 <= i < |r| ==> !('A' <= r[i] <= 'Z')
    ensures forall i :: 0 <= i < |s| && !('A' <= s[i] <= 'Z') ==> r[i] == s[i]
    ensures forall i :: 0 <= i < |s| && 'A' <= s[i] <= 'Z' ==>
              r[i] == (s[i] as int - 'A' as int + 'a' as int) as char
  {
    seq(|s|, i requires 0 <= i < |s| => LowerChar(s[i]))
  }

  /** `s.replace(c, "")`: every occurrence of `c` deleted, everything else
      kept in order (see `RemoveKeepsOthers`). */
  function Remove(s: string, c: char): (r: string)
    ensures c !in r
  {
    if s == [] then []
    else if s[0] == c then Remove(s[1..], c)
    else [s[0]] + Remove(s[1..], c)
  }

  /** `Remove` keeps every other character, as often as it occurs. */
  lemma {:induction false} RemoveKeepsOthers(s: string, c: char)
    ensures forall d :: d != c ==> multiset(Remove(s, c))[d] == multiset(s)[d]
  {
    if s != [] {
      RemoveKeepsOthers(s[1..], c);
      assert s == [s[0]] + s[1..];
    }
  }

  /** Removing from a concatenation removes from each part. */
  lemma {:induction false} RemoveAppend(a: string, b: string, c: char)
    ensures Remove(a + b, c) == Remove(a, c) + Remove(b, c)
  {
    if a != [] {
      RemoveAppend(a[1..], b, c);
      assert (a + b)[1..] == a[1..] + b;
    } else {
      assert a + b == b;
    }
  }

  /** One step of `Remove`: the first character is dropped or kept. */
  lemma RemoveCons(x: char, s: string, c: char)
    ensures Remove([x] + s, c) == if x == c then Remove(s, c) else [x] + Remove(s, c)
  {
    assert ([x] + s)[1..] == s;
  }

  /** Deleting the only `c` between two strings joins them. */
  lemma RemoveSeparator(a: string, b: string, c: char)
    requires c !in a && c !in b
    ensures Remove(a + [c] + b, c) == a + b
  {
    RemoveAppend(a + [c], b, c);
    RemoveTrailing(a, c);
    RemoveAbsent(b, c);
  }

  lemma RemoveTrailing(a: string, c: char)
    requires c !in a
    ensures Remove(a + [c], c) == a
  {
    RemoveAppend(a, [c], c);
    RemoveCons(c, [], c);
    assert [c] + [] == [c];
    RemoveAbsent(a, c);
  }

  /** "1,200" loses its thousands separator. */
  lemma CommaRemovedFromTwelveHundred()
    ensures Remove("1,200", ',') == "1200"
  {
    assert "1,200" == "1" + [','] + "200";
    RemoveSeparator("1", "200", ',');
    assert "1" + "200" == "1200";
  }

  /** A string without `c` is left alone by `Remove`. */
  lemma {:induction false} RemoveAbsent(s: string, c: char)
    requires c !in s
    ensures Remove(s, c) == s
  {
    if s != [] {
      RemoveAbsent(s[1..], c);
    }
  }

  /** `s.split(sep)`: the pieces between occurrences of `sep`, empty pieces
      included; always at least one piece. */
  function Split(s: string, sep: char): (parts: seq<string>)
    ensures |parts| >= 1
    ensures forall p :: p in parts ==> sep !in p
  {
    if s == [] then [""]
    else
      var rest := Split(s[1..], sep);
      if s[0] == sep then [""] + rest
      else [[s[0]] + rest[0]] + rest[1..]
  }

  /** Every character of every piece comes from the split text. */
  lemma {:induction false} SplitPiecesFromInput(s: string, sep: char)
    ensures forall p, c :: p in Split(s, sep) && c in p ==> c in s
  {
    if s != [] {
      var rest := Split(s[1..], sep);
      SplitPiecesFromInput(s[1..], sep);
      forall p, c | p in Split(s, sep) && c in p ensures c in s {
        if p in rest[1..] {
          assert c in s[1..];
        } else if s[0] != sep && p == [s[0]] + rest[0] && c != s[0] {
          assert rest[0] in rest;
          assert c in s[1..];
        }
      }
    }
  }

  /** `sep.join(parts)`. */
  function Join(parts: seq<string>, sep: char): string
    requires |parts| >= 1
  {
    if |parts| == 1 then parts[0] else parts[0] + [sep] + Join(parts[1..], sep)
  }

  /** Splitting and joining back gives the original string. */
  lemma {:induction false} JoinSplit(s: string, sep: char)
    ensures Join(Split(s, sep), sep) == s
  {
    if s != [] {
      var rest := Split(s[1..], sep);
      JoinSplit(s[1..], sep);
      if s[0] == sep {
        assert Split(s, sep)[1..] == rest;
      } else {
        var parts := Split(s, sep);
        assert parts[0] == [s[0]] + rest[0];
        if |rest| == 1 {
          assert parts == [[s[0]] + rest[0]];
        } else {
          assert parts[1..] == rest[1..];
          assert Join(rest, sep) == rest[0] + [sep] + Join(rest[1..], sep);
        }
      }
    }
  }

  /** Joining pieces that do not contain the separator and splitting again
      gives the pieces back. */
  lemma {:induction false} SplitJoin(parts: seq<string>, sep: char)
    requires |parts| >= 1
    requires forall i :: 0 <= i < |parts| ==> sep !in parts[i]
    ensures Split(Join(parts, sep), sep) == parts
  {
    if |parts| == 1 {
      SplitNoSeparator(parts[0], sep);
    } else {
      SplitJoin(parts[1..], sep);
      SplitPrefix(parts[0], Join(parts[1..], sep), sep);
    }
  }

  lemma {:induction false} SplitNoSeparator(s: string, sep: char)
    requires sep !in s
    ensures Split(s, sep) == [s]
  {
    if s != [] {
      SplitNoSeparator(s[1..], sep);
      assert s[0] != sep;
      assert [s[0]] + s[1..] == s;
    }
  }

  /** Splitting `p + [sep] + t` when `p` has no separator. */
  lemma {:induction false} SplitPrefix(p: string, t: string, sep: char)
    requires sep !in p
    ensures Split(p + [sep] + t, sep) == [p] + Split(t, sep)
  {
    var s := p + [sep] + t;
    if p == [] {
      assert s[1..] == t;
    } else {
      assert s[1..] == p[1..] + [sep] + t;
      SplitPrefix(p[1..], t, sep);
      var rest := Split(s[1..], sep);
      assert s[0] == p[0] && p[0] != sep;
      assert rest[0] == p[1..] && rest[1..] == Split(t, sep);
      assert [p[0]] + p[1..] == p;
    }
  }

  /** `re.sub(r'\s+', ' ', s)`: every maximal run of whitespace becomes one space. */
  function CollapseWhitespace(s: string): (r: string)
    ensures r == [] <==> s == []
    ensures s != [] ==> (IsSpace(s[0]) <==> r[0] == ' ')
    ensures forall i :: 0 <= i < |r| && IsSpace(r[i]) ==> r[i] == ' '
    ensures forall i :: 0 <= i < |r| - 1 ==> !(r[i] == ' ' && r[i + 1] == ' ')
    decreases |s|
  {
    if s == [] then []
    else if IsSpace(s[0]) then
      var rest := TrimLeft(s);
      var r := [' '] + CollapseWhitespace(rest);
      assert rest == [] || !IsSpace(rest[0]);
      r
    else [s[0]] + CollapseWhitespace(s[1..])
  }

  /** Trimming a string that holds a non-space character stops inside it. */
  lemma {:induction false} TrimLeftAppend(x: string, z: string)
    requires exists i :: 0 <= i < |x| && !IsSpace(x[i])
    ensures TrimLeft(x + z) == TrimLeft(x) + z
  {
    if IsSpace(x[0]) {
      assert (x + z)[1..] == x[1..] + z;
      TrimLeftAppend(x[1..], z);
    }
  }

  /** Whitespace followed by text that starts with a non-space trims to that text. */
  lemma {:induction false} TrimLeftSpaces(w: string, y: string)
    requires AllSpace(w) && y != [] && !IsSpace(y[0])
    ensures TrimLeft(w + y) == y
  {
    if w == [] {
      assert w + y == y;
    } else {
      assert (w + y)[1..] == w[1..] + y;
      TrimLeftSpaces(w[1..], y);
    }
  }

  /** A string that ends in a non-space collapses independently of what follows. */
  lemma {:induction false} CollapseAppend(x: string, z: string)
    requires x != [] && !IsSpace(x[|x| - 1])
    ensures CollapseWhitespace(x + z) == CollapseWhitespace(x) + CollapseWhitespace(z)
    decreases |x|, 1
  {
    if IsSpace(x[0]) {
      CollapseAppendSpace(x, z);
    } else {
      CollapseAppendText(x, z);
    }
  }

  lemma {:induction false} CollapseAppendSpace(x: string, z: string)
    requires x != [] && !IsSpace(x[|x| - 1]) && IsSpace(x[0])
    ensures CollapseWhitespace(x + z) == CollapseWhitespace(x) + CollapseWhitespace(z)
    decreases |x|, 0
  {
    assert (x + z)[0] == x[0];
    TrimLeftAppend(x, z);
    var t := TrimLeft(x);
    TrimLeftCutsSpace(x);
    assert t != [] && t[|t| - 1] == x[|x| - 1];
    CollapseAppend(t, z);
  }

  lemma {:induction false} CollapseAppendText(x: string, z: string)
    requires x != [] && !IsSpace(x[|x| - 1]) && !IsSpace(x[0])
    ensures CollapseWhitespace(x + z) == CollapseWhitespace(x) + CollapseWhitespace(z)
    decreases |x|, 0
  {
    var xz := x + z;
    assert xz[0] == x[0];
    if |x| == 1 {
      assert xz[1..] == z;
    } else {
      assert xz[1..] == x[1..] + z;
      CollapseAppend(x[1..], z);
    }
  }

  /** Between two pieces of text, a run of whitespace of any length and kind
      becomes exactly one space. */
  lemma CollapseSeparator(x: string, w: string, y: string)
    requires x != [] && !IsSpace(x[|x| - 1])
    requires w != [] && AllSpace(w)
    requires y != [] && !IsSpace(y[0])
    ensures CollapseWhitespace(x + w + y) == CollapseWhitespace(x) + " " + CollapseWhitespace(y)
  {
    assert x + w + y == x + (w + y);
    CollapseAppend(x, w + y);
    TrimLeftSpaces(w, y);
    assert (w + y)[0] == w[0];
  }

  predicate NotSpace(c: char) { !IsSpace(c) }

  /** Collapsing keeps every non-whitespace character, in order. */
  lemma {:induction false} CollapseKeepsText(s: string)
    ensures Filter(CollapseWhitespace(s), NotSpace) == Filter(s, NotSpace)
    decreases |s|
  {
    if s != [] {
      if IsSpace(s[0]) {
        var rest := TrimLeft(s);
        TrimLeftCutsSpace(s);
        CollapseKeepsText(rest);
        var cut := s[..|s| - |rest|];
        assert s == cut + rest;
        FilterAppend(cut, rest, NotSpace);
        FilterNone(cut, NotSpace);
        FilterAppend([' '], CollapseWhitespace(rest), NotSpace);
      } else {
        CollapseKeepsText(s[1..]);
      }
    }
  }

  lemma {:induction false} FilterNone(s: string, p: char -> bool)
    requires forall i :: 0 <= i < |s| ==> !p(s[i])
    ensures Filter(s, p) == []
  {
    if s != [] {
      FilterNone(s[1..], p);
    }
  }

  /** Collapsing twice is the same as collapsing once. */
  lemma {:induction false} CollapseIdempotent(s: string)
    ensures CollapseWhitespace(CollapseWhitespace(s)) == CollapseWhitespace(s)
  {
    CollapsedFixed(CollapseWhitespace(s));
  }

  /** A string whose only whitespace is single spaces is its own collapse. */
  lemma {:induction false} CollapsedFixed(s: string)
    requires forall i :: 0 <= i < |s| && IsSpace(s[i]) ==> s[i] == ' '
    requires forall i :: 0 <= i < |s| - 1 ==> !(s[i] == ' ' && s[i + 1] == ' ')
    ensures CollapseWhitespace(s) == s
  {
    if s != [] {
      CollapsedFixed(s[1..]);
      if IsSpace(s[0]) {
        assert TrimLeft(s) == TrimLeft(s[1..]);
        assert s[1..] == [] || !IsSpace(s[1]);
        assert TrimLeft(s[1..]) == s[1..];
      }
    }
  }
}
