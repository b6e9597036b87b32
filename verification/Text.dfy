/** Joining lines or path segments with one separator character, and splitting them again. */
module Text {

  datatype Option<+T> = None | Some(value: T)

  datatype Result<+T, +E> = Ok(value: T) | Err(error: E)

  function Join(parts: seq<string>, sep: char): string {
    if parts == [] then ""
    else if |parts| == 1 then parts[0]
    else parts[0] + [sep] + Join(parts[1..], sep)
  }

  function Split(s: string, sep: char): (parts: seq<string>)
    ensures parts != []
    ensures forall p <- parts :: sep !in p
  {
    if s == "" then [""]
    else
      var rest := Split(s[1..], sep);
      if s[0] == sep then [""] + rest else [[s[0]] + rest[0]] + rest[1..]
  }

  function Filter(s: string, keep: char -> bool): (r: string)
    ensures forall c <- r :: keep(c) && c in s
  {
    if s == "" then "" else (if keep(s[0]) then [s[0]] else "") + Filter(s[1..], keep)
  }

  lemma {:induction false} FilterKeepsAll(s: string, keep: char -> bool)
    requires forall c <- s :: keep(c)
    ensures Filter(s, keep) == s
  {
    if s != "" {
      assert s[0] in s;
      FilterKeepsAll(s[1..], keep);
    }
  }

  lemma {:induction false} FilterSnoc(s: string, c: char, keep: char -> bool)
    ensures Filter(s + [c], keep) == Filter(s, keep) + if keep(c) then [c] else ""
  {
    if s == "" {
      assert s + [c] == [c] && [c][1..] == "";
    } else {
      assert (s + [c])[0] == s[0] && (s + [c])[1..] == s[1..] + [c];
      FilterSnoc(s[1..], c, keep);
    }
  }

  /** These are the places of s whose characters are kept, in order, and r is what stands there. */
  ghost predicate KeptAt(s: string, keep: char -> bool, places: seq<nat>, r: string) {
    && (forall j, k | 0 <= j < k < |places| :: places[j] < places[k])
    && (forall j | 0 <= j < |places| :: places[j] < |s|)
    && (forall i | 0 <= i < |s| :: i in places <==> keep(s[i]))
    && |r| == |places| && (forall j | 0 <= j < |places| :: r[j] == s[places[j]])
  }

  lemma KeptAtSnoc(s: string, keep: char -> bool, places: seq<nat>, r: string, c: char)
    requires KeptAt(s, keep, places, r)
    ensures keep(c) ==> KeptAt(s + [c], keep, places + [|s|], r + [c])
    ensures !keep(c) ==> KeptAt(s + [c], keep, places, r)
  {
    assert forall j | 0 <= j < |places| :: places[j] != |s|;
    forall i | 0 <= i < |s| ensures (s + [c])[i] == s[i] && (i in places + [|s|] <==> i in places) {
    }
    assert (s + [c])[|s|] == c;
    assert (places + [|s|])[|places|] == |s|;
  }

  /** Filtering keeps exactly the characters asked for, in their order: the places they come from. */
  lemma {:induction false} FilterPlaces(s: string, keep: char -> bool) returns (places: seq<nat>)
    ensures KeptAt(s, keep, places, Filter(s, keep))
  {
    places := [];
    if s != "" {
      var n := |s| - 1;
      assert s == s[..n] + [s[n]];
      var before := FilterPlaces(s[..n], keep);
      FilterSnoc(s[..n], s[n], keep);
      KeptAtSnoc(s[..n], keep, before, Filter(s[..n], keep), s[n]);
      places := if keep(s[n]) then before + [n] else before;
      assert Filter(s[..n], keep) + "" == Filter(s[..n], keep);
    }
  }

  lemma {:induction false} SplitNoSeparator(s: string, sep: char)
    requires sep !in s
    ensures Split(s, sep) == [s]
  {
    if s != "" {
      SplitNoSeparator(s[1..], sep);
      assert [s[0]] + s[1..] == s;
    }
  }

  lemma {:induction false} SplitConcat(a: string, b: string, sep: char)
    ensures Split(a + [sep] + b, sep) == Split(a, sep) + Split(b, sep)
  {
    if a == "" {
      assert (a + [sep] + b)[1..] == b;
    } else {
      assert (a + [sep] + b)[1..] == a[1..] + [sep] + b;
      SplitConcat(a[1..], b, sep);
    }
  }

  /** Splitting undoes joining, for parts that do not hold the separator. */
  lemma {:induction false} SplitJoin(parts: seq<string>, sep: char)
    requires parts != []
    requires forall p <- parts :: sep !in p
    ensures Split(Join(parts, sep), sep) == parts
  {
    SplitNoSeparator(parts[0], sep);
    if |parts| > 1 {
      SplitConcat(parts[0], Join(parts[1..], sep), sep);
      SplitJoin(parts[1..], sep);
    }
  }

  lemma {:induction false} JoinConcat(a: seq<string>, b: seq<string>, sep: char)
    requires a != [] && b != []
    ensures Join(a + b, sep) == Join(a, sep) + [sep] + Join(b, sep)
  {
    assert (a + b)[1..] == a[1..] + b;
    if |a| > 1 { JoinConcat(a[1..], b, sep); }
  }
}
