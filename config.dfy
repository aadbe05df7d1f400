/** `Config.__parse_skv`: a `section:key:value` command-line option split
    into its three parts, each stripped of surrounding whitespace. */
module Config {
  import opened Wrappers

  /** `ValueError`: the option does not hold exactly two colons. */
  datatype SkvError = BadFormat(option: string)

  datatype Skv = Skv(section: string, key: string, value: string)

  /** The characters Python's `str.strip()` removes: those for which
      `str.isspace()` holds. */
  predicate IsSpace(c: char)
  {
    || ('\U{9}' <= c <= '\U{d}') || ('\U{1c}' <= c <= '\U{20}')
    || c == '\U{85}' || c == '\U{a0}' || c == '\U{1680}'
    || ('\U{2000}' <= c <= '\U{200a}') || c == '\U{2028}' || c == '\U{2029}'
    || c == '\U{202f}' || c == '\U{205f}' || c == '\U{3000}'
  }

  predicate AllSpace(s: string)
  {
    forall i :: 0 <= i < |s| ==> IsSpace(s[i])
  }

  /** Neither end of `s` is whitespace. */
  predicate Trimmed(s: string)
  {
    s == [] || (!IsSpace(s[0]) && !IsSpace(s[|s| - 1]))
  }

  /** `s.count(c)` */
  function Count(s: string, c: char): nat
  {
    if s == [] then 0 else (if s[0] == c then 1 else 0) + Count(s[1..], c)
  }

  /** `s.split(c)`: the pieces between the occurrences of `c`. */
  function Split(s: string, c: char): (pieces: seq<string>)
    ensures |pieces| >= 1
  {
    if s == [] then [""]
    else if s[0] == c then [""] + Split(s[1..], c)
    else
      var rest := Split(s[1..], c);
      [[s[0]] + rest[0]] + rest[1..]
  }

  /** `c.join(pieces)` */
  function Join(pieces: seq<string>, c: char): string
    requires |pieces| >= 1
  {
    if |pieces| == 1 then pieces[0] else pieces[0] + [c] + Join(pieces[1..], c)
  }

  /** `split` gives one more piece than there are separators, no piece
      holds the separator, and joining the pieces gives the string back. */
  lemma {:induction false} SplitSpec(s: string, c: char)
    ensures |Split(s, c)| == Count(s, c) + 1
    ensures forall i :: 0 <= i < |Split(s, c)| ==> c !in Split(s, c)[i]
    ensures Join(Split(s, c), c) == s
  {
    if s != [] {
      SplitSpec(s[1..], c);
      var rest := Split(s[1..], c);
      if s[0] == c {
        assert [""] + rest == Split(s, c);
        assert ([""] + rest)[1..] == rest;
        assert s == "" + [c] + s[1..];
      } else {
        var pieces := Split(s, c);
        assert pieces[0] == [s[0]] + rest[0];
        assert pieces[1..] == rest[1..];
        forall i | 0 <= i < |pieces|
          ensures c !in pieces[i]
        {
          if i > 0 {
            assert pieces[i] == rest[i];
          }
        }
        if |rest| == 1 {
          assert Join(pieces, c) == [s[0]] + rest[0];
        } else {
          assert Join(pieces, c) == [s[0]] + rest[0] + [c] + Join(rest[1..], c);
          assert Join(rest, c) == rest[0] + [c] + Join(rest[1..], c);
        }
        assert s == [s[0]] + s[1..];
      }
    }
  }

  function StripLeft(s: string): string
  {
    if s != [] && IsSpace(s[0]) then StripLeft(s[1..]) else s
  }

  function StripRight(s: string): string
  {
    if s != [] && IsSpace(s[|s| - 1]) then StripRight(s[..|s| - 1]) else s
  }

  /** `s.strip()` */
  function Strip(s: string): string
  {
    StripRight(StripLeft(s))
  }

  /** The number of whitespace characters `s` starts with. */
  function LeadingSpaces(s: string): (n: nat)
    ensures n <= |s|
  {
    if s != [] && IsSpace(s[0]) then 1 + LeadingSpaces(s[1..]) else 0
  }

  /** Where the whitespace `s` ends with begins. */
  function TrailingStart(s: string): (j: nat)
    ensures j <= |s|
  {
    if s != [] && IsSpace(s[|s| - 1]) then TrailingStart(s[..|s| - 1]) else |s|
  }

  lemma {:induction false} StripLeftSpec(s: string)
    ensures var i := LeadingSpaces(s);
            && StripLeft(s) == s[i..] && AllSpace(s[..i])
            && (StripLeft(s) == [] || !IsSpace(StripLeft(s)[0]))
  {
    if s != [] && IsSpace(s[0]) {
      StripLeftSpec(s[1..]);
      var i := LeadingSpaces(s[1..]);
      assert s[1..][i..] == s[i + 1..];
      var pre, pre' := s[..i + 1], s[1..][..i];
      forall k | 0 <= k < |pre|
        ensures IsSpace(pre[k])
      {
        if k > 0 {
          assert pre[k] == pre'[k - 1];
        }
      }
    } else {
      assert s[0..] == s;
    }
  }

  lemma {:induction false} StripRightSpec(s: string)
    ensures var j := TrailingStart(s);
            && StripRight(s) == s[..j] && AllSpace(s[j..])
            && (StripRight(s) == [] || !IsSpace(StripRight(s)[|StripRight(s)| - 1]))
    decreases |s|
  {
    if s != [] && IsSpace(s[|s| - 1]) {
      var t := s[..|s| - 1];
      StripRightSpec(t);
      var j := TrailingStart(t);
      assert t[..j] == s[..j];
      forall k | 0 <= k < |s| - j
        ensures IsSpace(s[j..][k])
      {
        if j + k < |s| - 1 {
          assert s[j..][k] == t[j..][k];
        }
      }
    } else {
      assert s[..|s|] == s;
    }
  }

  /** `strip` removes whitespace from both ends and nothing else: the
      result is an infix of `s` with only whitespace around it, and it
      neither starts nor ends with whitespace. */
  lemma StripSpec(s: string)
    ensures exists i, j :: 0 <= i <= j <= |s| && Strip(s) == s[i..j] && AllSpace(s[..i]) && AllSpace(s[j..])
    ensures Trimmed(Strip(s))
  {
    StripLeftSpec(s);
    var i := LeadingSpaces(s);
    var t := s[i..];
    StripRightSpec(t);
    var j := TrailingStart(t);
    assert t[..j] == s[i..i + j];
    var tail, tail' := s[i + j..], t[j..];
    forall k | 0 <= k < |tail|
      ensures IsSpace(tail[k])
    {
      assert tail[k] == tail'[k];
    }
    if Strip(s) != [] {
      assert Strip(s)[0] == t[0];
    }
    assert 0 <= i <= i + j <= |s| && Strip(s) == s[i..i + j] && AllSpace(s[..i]) && AllSpace(s[i + j..]);
  }

  /** A string with no whitespace at either end is left as it is. */
  lemma StripTrimmed(s: string)
    requires Trimmed(s)
    ensures Strip(s) == s
  {
  }

  /** `__parse_skv(skv)`: the option is refused, with itself in the
      error, exactly when it does not hold two colons. */
  function ParseSkv(skv: string): (r: Result<Skv, SkvError>)
    ensures r.Err? <==> Count(skv, ':') != 2
    ensures r.Err? ==> r.error == BadFormat(skv)
  {
    if Count(skv, ':') != 2 then Err(BadFormat(skv))
    else
      var pieces := Split(skv, ':');
      SplitSpec(skv, ':');
      Ok(Skv(Strip(pieces[0]), Strip(pieces[1]), Strip(pieces[2])))
  }

  /** An accepted option is `a:b:c` with no colon in `a`, `b` or `c`, and
      the three parts are `a`, `b` and `c` stripped, in that order. */
  lemma ParseSkvPieces(skv: string)
    requires ParseSkv(skv).Ok?
    ensures exists a, b, c ::
              && skv == a + ":" + b + ":" + c
              && ':' !in a && ':' !in b && ':' !in c
              && ParseSkv(skv).value == Skv(Strip(a), Strip(b), Strip(c))
  {
    SplitSpec(skv, ':');
    var p := Split(skv, ':');
    assert p[1..][1..] == [p[2]];
    assert Join(p[1..], ':') == p[1] + [':'] + p[2];
    assert skv == p[0] + ":" + p[1] + ":" + p[2];
    assert ':' !in p[0] && ':' !in p[1] && ':' !in p[2];
  }

  /** Each part keeps its inner characters and loses only the whitespace
      around it. */
  lemma ParseSkvStripped(skv: string)
    requires ParseSkv(skv).Ok?
    ensures var r := ParseSkv(skv).value;
            Trimmed(r.section) && Trimmed(r.key) && Trimmed(r.value)
  {
    var p := Split(skv, ':');
    SplitSpec(skv, ':');
    StripSpec(p[0]);
    StripSpec(p[1]);
    StripSpec(p[2]);
  }

  /** Joining the three parts with `':'` gives back an option that had no
      whitespace around its parts. */
  lemma ParseSkvRoundTrip(a: string, b: string, c: string)
    requires ':' !in a && ':' !in b && ':' !in c
    requires Trimmed(a) && Trimmed(b) && Trimmed(c)
    ensures ParseSkv(a + ":" + b + ":" + c) == Ok(Skv(a, b, c))
  {
    var skv := a + ":" + b + ":" + c;
    SplitPieces(a, b, c);
    CountPieces(a, b, c);
    StripTrimmed(a);
    StripTrimmed(b);
    StripTrimmed(c);
  }

  lemma {:induction false} SplitPrefix(a: string, rest: string, c: char)
    requires c !in a
    ensures Split(a + [c] + rest, c) == [a] + Split(rest, c)
  {
    if a == [] {
      assert a + [c] + rest == [c] + rest;
      assert ([c] + rest)[1..] == rest;
    } else {
      assert (a + [c] + rest)[1..] == a[1..] + [c] + rest;
      assert (a + [c] + rest)[0] == a[0];
      SplitPrefix(a[1..], rest, c);
      assert [a[0]] + a[1..] == a;
    }
  }

  lemma {:induction false} SplitNone(a: string, c: char)
    requires c !in a
    ensures Split(a, c) == [a]
  {
    if a != [] {
      SplitNone(a[1..], c);
      assert [a[0]] + a[1..] == a;
    }
  }

  lemma SplitPieces(a: string, b: string, c: string)
    requires ':' !in a && ':' !in b && ':' !in c
    ensures Split(a + ":" + b + ":" + c, ':') == [a, b, c]
  {
    assert a + ":" + b + ":" + c == a + [':'] + (b + [':'] + c);
    SplitPrefix(a, b + [':'] + c, ':');
    SplitPrefix(b, c, ':');
    SplitNone(c, ':');
  }

  lemma {:induction false} CountAppend(s: string, t: string, ch: char)
    ensures Count(s + t, ch) == Count(s, ch) + Count(t, ch)
  {
    if s == [] {
      assert s + t == t;
    } else {
      assert (s + t)[1..] == s[1..] + t;
      CountAppend(s[1..], t, ch);
    }
  }

  lemma {:induction false} CountAbsent(s: string, ch: char)
    requires ch !in s
    ensures Count(s, ch) == 0
  {
    if s != [] {
      CountAbsent(s[1..], ch);
    }
  }

  lemma CountPieces(a: string, b: string, c: string)
    requires ':' !in a && ':' !in b && ':' !in c
    ensures Count(a + ":" + b + ":" + c, ':') == 2
  {
    CountAppend(a + ":" + b, ":" + c, ':');
    CountAppend(a, ":" + b, ':');
    CountAppend(":", b, ':');
    CountAppend(":", c, ':');
    CountAbsent(a, ':');
    CountAbsent(b, ':');
    CountAbsent(c, ':');
    assert a + ":" + b == a + (":" + b);
    assert a + ":" + b + ":" + c == (a + ":" + b) + (":" + c);
  }
}
