/** String normalisation as the task list uses it: trimming surrounding
    whitespace (JavaScript `trim`, Python `str.strip`) and lower-casing
    (JavaScript `toLowerCase`), both over ASCII. */
module Text {

  /** ASCII whitespace: space, tab, line feed, vertical tab, form feed, carriage return. */
  predicate IsSpace(c: char) {
    c == ' ' || '\t' <= c <= '\r'
  }

  /** Every character of `s` is whitespace (so is the empty string). */
  predicate AllSpace(s: string) {
    s == [] || (IsSpace(s[0]) && AllSpace(s[1..]))
  }

  lemma {:induction false} AllSpaceConcat(a: string, b: string)
    ensures AllSpace(a + b) <==> AllSpace(a) && AllSpace(b)
  {
    if a == [] {
      assert a + b == b;
    } else {
      assert (a + b)[0] == a[0];
      assert (a + b)[1..] == a[1..] + b;
      AllSpaceConcat(a[1..], b);
    }
  }

  /** `s` without its leading whitespace. */
  function TrimStart(s: string): (r: string)
    ensures r == [] || !IsSpace(r[0])
    ensures r == [] <==> AllSpace(s)
  {
    if s != [] && IsSpace(s[0]) then TrimStart(s[1..]) else s
  }

  /** `s` without its trailing whitespace. */
  function TrimEnd(s: string): (r: string)
    ensures r == [] || (s != [] && r[0] == s[0] && !IsSpace(r[|r| - 1]))
    ensures r == [] <==> AllSpace(s)
  {
    if AllSpace(s) then [] else [s[0]] + TrimEnd(s[1..])
  }

  /** `TrimStart` drops a run of whitespace from the front and keeps the rest. */
  lemma {:induction false} TrimStartShape(s: string)
    ensures |TrimStart(s)| <= |s|
    ensures TrimStart(s) == s[|s| - |TrimStart(s)|..]
    ensures AllSpace(s[..|s| - |TrimStart(s)|])
  {
    if s != [] && IsSpace(s[0]) {
      TrimStartShape(s[1..]);
      var k := |s| - |TrimStart(s)|;
      assert s[..k][1..] == s[1..][..k - 1];
    }
  }

  /** `TrimEnd` keeps a prefix and drops a run of whitespace from the back. */
  lemma {:induction false} TrimEndShape(s: string)
    ensures |TrimEnd(s)| <= |s|
    ensures TrimEnd(s) == s[..|TrimEnd(s)|]
    ensures AllSpace(s[|TrimEnd(s)|..])
  {
    if AllSpace(s) {
      assert s[0..] == s;
    } else {
      var t := TrimEnd(s[1..]);
      TrimEndShape(s[1..]);
      assert TrimEnd(s) == [s[0]] + t;
      assert s[..|t| + 1] == [s[0]] + s[1..][..|t|];
      assert s[|t| + 1..] == s[1..][|t|..];
    }
  }

  /** A string that ends in a non-space is its own `TrimEnd`. */
  lemma {:induction false} TrimEndKeeps(s: string)
    requires s == [] || !IsSpace(s[|s| - 1])
    ensures TrimEnd(s) == s
  {
    if |s| > 1 {
      TrimEndKeeps(s[1..]);
      assert [s[0]] + s[1..] == s;
    }
  }

  /** `s` without leading and trailing whitespace. */
  function Trim(s: string): (r: string)
    ensures r == [] || (!IsSpace(r[0]) && !IsSpace(r[|r| - 1]))
    ensures r == [] <==> AllSpace(s)
  {
    TrimEnd(TrimStart(s))
  }

  /** Trimming twice is trimming once. */
  lemma TrimIdempotent(s: string)
    ensures Trim(Trim(s)) == Trim(s)
  {
    var r := Trim(s);
    if r != [] {
      assert TrimStart(r) == r;
      TrimEndKeeps(r);
    }
  }

  /** Leading whitespace does not change what `TrimStart` leaves. */
  lemma {:induction false} TrimStartSkips(blank: string, s: string)
    requires AllSpace(blank)
    ensures TrimStart(blank + s) == TrimStart(s)
  {
    if blank == [] {
      assert blank + s == s;
    } else {
      assert (blank + s)[0] == blank[0];
      assert (blank + s)[1..] == blank[1..] + s;
      TrimStartSkips(blank[1..], s);
    }
  }

  /** Trailing whitespace does not change what `TrimEnd` leaves. */
  lemma {:induction false} TrimEndSkips(s: string, blank: string)
    requires AllSpace(blank)
    ensures TrimEnd(s + blank) == TrimEnd(s)
  {
    AllSpaceConcat(s, blank);
    if !AllSpace(s) {
      assert (s + blank)[0] == s[0];
      assert (s + blank)[1..] == s[1..] + blank;
      TrimEndSkips(s[1..], blank);
    }
  }

  /** Trimming removes whitespace wrapped around a text that starts and ends in non-spaces. */
  lemma TrimAround(before: string, s: string, after: string)
    requires AllSpace(before) && AllSpace(after)
    requires s != [] && !IsSpace(s[0]) && !IsSpace(s[|s| - 1])
    ensures Trim(before + s + after) == s
  {
    TrimStartAround(before, s, after);
    TrimEndSkips(s, after);
    TrimEndKeeps(s);
  }

  lemma TrimStartAround(before: string, s: string, after: string)
    requires AllSpace(before)
    requires s != [] && !IsSpace(s[0])
    ensures TrimStart(before + s + after) == s + after
  {
    assert before + s + after == before + (s + after);
    TrimStartSkips(before, s + after);
    assert (s + after)[0] == s[0];
  }

  function LowerChar(c: char): char {
    if 'A' <= c <= 'Z' then (c as int + 32) as char else c
  }

  /** `s` with every ASCII capital replaced by its small letter. */
  function Lower(s: string): (r: string)
    ensures |r| == |s|
    ensures forall i :: 0 <= i < |s| ==> r[i] == LowerChar(s[i])
  {
    if s == [] then [] else [LowerChar(s[0])] + Lower(s[1..])
  }
}
