/**
 * The report update of `main` (acciones.py): the rendered table replaces the
 * text between two marker comments of the HTML report, computed with Python's
 * `str.split` as `content.split(start)[0] + new + content.split(end)[1]`.
 */
module Report {
  import opened Wrappers

  /** The marker comments of the report, as `main` defines them. */
  const StartMarker: string := "<!-- Inicio Tabla de Resultados -->"
  const EndMarker: string := "<!-- Fin Tabla de Resultados -->"

  /** `split(end)[1]` on a document without the end marker raises `IndexError`. */
  datatype SpliceError = IndexError

  /** The characters `m[t..]` appear in `s` from position `k + t` on. */
  predicate MatchesFrom(s: string, m: string, k: nat, t: nat)
    requires k + |m| <= |s| && t <= |m|
    decreases |m| - t
  {
    t == |m| || (s[k + t] == m[t] && MatchesFrom(s, m, k, t + 1))
  }

  /** `m` occurs in `s` starting at position `k`. */
  predicate Occurs(s: string, m: string, k: int)
  {
    0 <= k && k + |m| <= |s| && MatchesFrom(s, m, k, 0)
  }

  lemma {:induction false} MatchesFromSlice(s: string, m: string, k: nat, t: nat)
    requires k + |m| <= |s| && t <= |m|
    decreases |m| - t
    ensures MatchesFrom(s, m, k, t) <==> s[k + t..k + |m|] == m[t..]
  {
    if t < |m| {
      MatchesFromSlice(s, m, k, t + 1);
      assert s[k + t..k + |m|] == [s[k + t]] + s[k + t + 1..k + |m|];
      assert m[t..] == [m[t]] + m[t + 1..];
    }
  }

  /** An occurrence is a slice of `s` equal to `m`. */
  lemma OccursSlice(s: string, m: string, k: int)
    ensures Occurs(s, m, k) <==> 0 <= k && k + |m| <= |s| && s[k..k + |m|] == m
  {
    if 0 <= k && k + |m| <= |s| {
      MatchesFromSlice(s, m, k, 0);
    }
  }

  /** `m` occurs in `s` at position `k` and nowhere else. */
  ghost predicate OnlyAt(s: string, m: string, k: int)
  {
    Occurs(s, m, k) && forall k' :: Occurs(s, m, k') ==> k' == k
  }

  /** The first position at or after `from` where `m` occurs in `s` (`str.find`). */
  function IndexOf(s: string, m: string, from: nat): (r: Option<nat>)
    decreases |s| - from
    ensures r.Some? ==> from <= r.value && Occurs(s, m, r.value)
                        && forall k :: from <= k < r.value ==> !Occurs(s, m, k)
    ensures r.None? ==> forall k :: from <= k ==> !Occurs(s, m, k)
  {
    if from + |m| > |s| then None
    else if Occurs(s, m, from) then Some(from)
    else IndexOf(s, m, from + 1)
  }

  /** The inverse of `Split`: `sep.join(parts)`. */
  function Join(parts: seq<string>, sep: string): string
    requires |parts| > 0
  {
    if |parts| == 1 then parts[0] else parts[0] + sep + Join(parts[1..], sep)
  }

  /**
   * `s.split(sep)`: the pieces between the non-overlapping occurrences of `sep`,
   * found from left to right. There is always at least one piece.
   */
  function Split(s: string, sep: string): (parts: seq<string>)
    requires |sep| > 0
    decreases |s|
    ensures |parts| > 0
  {
    match IndexOf(s, sep, 0)
    case None => [s]
    case Some(k) => [s[..k]] + Split(s[k + |sep|..], sep)
  }

  /** Joining the pieces of a split with the separator gives back the original text. */
  lemma {:induction false} SplitJoin(s: string, sep: string)
    requires |sep| > 0
    decreases |s|
    ensures Join(Split(s, sep), sep) == s
  {
    match IndexOf(s, sep, 0)
    case None =>
    case Some(k) =>
      var rest := s[k + |sep|..];
      var parts := Split(s, sep);
      assert parts == [s[..k]] + Split(rest, sep);
      SplitJoin(rest, sep);
      calc {
        Join(parts, sep);
        s[..k] + sep + Join(Split(rest, sep), sep);
        s[..k] + sep + rest;
        { OccursSlice(s, sep, k); }
        s[..k] + s[k..k + |sep|] + s[k + |sep|..];
        s;
      }
  }

  /**
   * The updated report: the text before the first start marker (the whole document
   * when there is none), the markers around the table on lines of their own, then
   * the text between the first and the second end marker (or up to the end).
   */
  function Splice(doc: string, table: string, startMarker: string, endMarker: string)
    : (r: Result<string, SpliceError>)
    requires |startMarker| > 0 && |endMarker| > 0
    ensures r.Err? <==> forall k :: !Occurs(doc, endMarker, k)
  {
    var before := Split(doc, startMarker);
    var after := Split(doc, endMarker);
    if |after| < 2 then
      Err(IndexError)
    else
      Ok(before[0] + startMarker + "\n" + table + "\n" + endMarker + after[1])
  }

  /** Both markers are non-empty and neither spans a line break. */
  predicate OneLineMarkers(startMarker: string, endMarker: string)
  {
    |startMarker| > 0 && |endMarker| > 0 && '\n' !in startMarker && '\n' !in endMarker
  }

  /** The report's own markers are one-line markers. */
  lemma ReportMarkersOneLine()
    ensures OneLineMarkers(StartMarker, EndMarker)
  {
  }

  /** An occurrence inside a prefix of `s` is an occurrence in `s`. */
  lemma OccursInPrefix(s: string, n: nat, m: string, k: int)
    requires n <= |s| && Occurs(s[..n], m, k)
    ensures Occurs(s, m, k)
  {
    OccursSlice(s[..n], m, k);
    OccursSlice(s, m, k);
    assert s[..n][k..k + |m|] == s[k..k + |m|];
  }

  /** An occurrence inside a suffix of `s` is an occurrence in `s`, shifted by the suffix's start. */
  lemma OccursInSuffix(s: string, n: nat, m: string, k: int)
    requires n <= |s| && Occurs(s[n..], m, k)
    ensures Occurs(s, m, n + k)
  {
    OccursSlice(s[n..], m, k);
    OccursSlice(s, m, n + k);
    assert s[n..][k..k + |m|] == s[n + k..n + k + |m|];
  }

  /** An occurrence at or after `n` is an occurrence in the suffix from `n`. */
  lemma OccursIntoSuffix(s: string, n: nat, m: string, k: int)
    requires n <= k && Occurs(s, m, k)
    ensures Occurs(s[n..], m, k - n)
  {
    OccursSlice(s, m, k);
    OccursSlice(s[n..], m, k - n);
    assert s[n..][k - n..k - n + |m|] == s[k..k + |m|];
  }

  /** Inside an occurrence, each character of `s` is the matching character of `m`. */
  lemma WindowChar(s: string, m: string, k: int, p: int)
    ensures Occurs(s, m, k) && k <= p < k + |m| ==> m[p - k] == s[p]
  {
    if Occurs(s, m, k) && k <= p < k + |m| {
      OccursSlice(s, m, k);
      assert s[k..k + |m|][p - k] == s[p];
    }
  }

  /** A one-line pattern found in two texts joined by a line break lies wholly in one of them. */
  lemma OccursAcrossNewline(x: string, y: string, m: string, k: int)
    requires '\n' !in m && Occurs(x + "\n" + y, m, k)
    ensures Occurs(x, m, k) || Occurs(y, m, k - |x| - 1)
  {
    var s := x + "\n" + y;
    OccursSlice(s, m, k);
    if k + |m| <= |x| {
      assert s[k..k + |m|] == x[k..k + |m|];
      OccursSlice(x, m, k);
    } else if k > |x| {
      assert s[k..k + |m|] == y[k - |x| - 1..k - |x| - 1 + |m|];
      OccursSlice(y, m, k - |x| - 1);
    } else {
      WindowChar(s, m, k, |x|);
      assert false;
    }
  }

  /** In `a`, line break, `t`, line break, `b`, a one-line pattern absent from `t` occurs only inside `a` or `b`. */
  lemma OccursAroundTable(a: string, t: string, b: string, m: string, k: int)
    requires '\n' !in m && forall k' :: !Occurs(t, m, k')
    requires Occurs(a + "\n" + t + "\n" + b, m, k)
    ensures Occurs(a, m, k) || Occurs(b, m, k - |a| - |t| - 2)
  {
    assert a + "\n" + t + "\n" + b == (a + "\n" + t) + "\n" + b;
    OccursAcrossNewline(a + "\n" + t, b, m, k);
    if Occurs(a + "\n" + t, m, k) {
      OccursAcrossNewline(a, t, m, k);
    }
  }

  /** `split` puts the text before the first occurrence of the separator in the first piece. */
  lemma SplitFirst(s: string, sep: string, k: nat)
    requires |sep| > 0 && Occurs(s, sep, k)
    requires forall k' :: 0 <= k' < k ==> !Occurs(s, sep, k')
    ensures |Split(s, sep)| > 1
    ensures Split(s, sep)[0] == s[..k]
    ensures Split(s, sep)[1] == Split(s[k + |sep|..], sep)[0]
  {
    var r := IndexOf(s, sep, 0);
    assert r.Some? && r.value == k;
  }

  /** Without an occurrence of the separator, `split` returns the whole text as its only piece. */
  lemma SplitAbsent(s: string, sep: string)
    requires |sep| > 0 && forall k :: !Occurs(s, sep, k)
    ensures Split(s, sep) == [s]
  {
    assert IndexOf(s, sep, 0).None?;
  }

  /** When `sep` occurs in `s` at `k` and nowhere else, the second piece is the whole text after it. */
  lemma SplitOnlyAt(s: string, sep: string, k: nat)
    requires |sep| > 0 && OnlyAt(s, sep, k)
    ensures |Split(s, sep)| > 1
    ensures Split(s, sep)[0] == s[..k] && Split(s, sep)[1] == s[k + |sep|..]
  {
    SplitFirst(s, sep, k);
    var rest := s[k + |sep|..];
    forall k' ensures !Occurs(rest, sep, k') {
      if Occurs(rest, sep, k') {
        OccursInSuffix(s, k + |sep|, sep, k');
      }
    }
    SplitAbsent(rest, sep);
  }

  /**
   * Well-formed report: each marker occurs once, the start marker first. The result
   * keeps everything before the start marker and after the end marker, and puts the
   * table, on lines of its own, between them.
   */
  lemma SpliceWellFormed(doc: string, table: string, startMarker: string, endMarker: string, i: nat, j: nat)
    requires |startMarker| > 0 && |endMarker| > 0
    requires OnlyAt(doc, startMarker, i) && OnlyAt(doc, endMarker, j) && i + |startMarker| <= j
    ensures Splice(doc, table, startMarker, endMarker)
            == Ok(doc[..i] + startMarker + "\n" + table + "\n" + endMarker + doc[j + |endMarker|..])
  {
    SplitOnlyAt(doc, startMarker, i);
    SplitOnlyAt(doc, endMarker, j);
  }

  /**
   * Missing start marker: not an error. The whole document is kept as the prefix,
   * so the end marker and the text after it appear twice in the result.
   */
  lemma SpliceMissingStart(doc: string, table: string, startMarker: string, endMarker: string, j: nat)
    requires |startMarker| > 0 && |endMarker| > 0
    requires forall k :: !Occurs(doc, startMarker, k)
    requires OnlyAt(doc, endMarker, j)
    ensures Splice(doc, table, startMarker, endMarker)
            == Ok(doc + startMarker + "\n" + table + "\n" + endMarker + doc[j + |endMarker|..])
  {
    SplitAbsent(doc, startMarker);
    SplitOnlyAt(doc, endMarker, j);
  }

  /** No occurrence in a suffix of `s` before `k`, when `s` has none in the corresponding range. */
  lemma NoneInSuffixBefore(s: string, n: nat, m: string, k: nat, j1: nat)
    requires n <= |s| && j1 < n
    requires forall k' :: Occurs(s, m, k') && k' < n + k ==> k' == j1
    ensures forall k' :: 0 <= k' < k ==> !Occurs(s[n..], m, k')
  {
    forall k' | 0 <= k' < k ensures !Occurs(s[n..], m, k') {
      if Occurs(s[n..], m, k') {
        OccursInSuffix(s, n, m, k');
      }
    }
  }

  /** A prefix of a suffix is a slice. */
  lemma SliceOfSuffix(s: string, n: nat, k: nat)
    requires n + k <= |s|
    ensures s[n..][..k] == s[n..n + k]
  {
  }

  /** After its first occurrence at `j1`, the separator next occurs at `j2`. */
  lemma FirstInSuffix(s: string, sep: string, j1: nat, j2: nat)
    requires |sep| > 0 && Occurs(s, sep, j2) && j1 + |sep| <= j2
    requires forall k :: Occurs(s, sep, k) && k < j2 ==> k == j1
    ensures var n := j1 + |sep|;
            Occurs(s[n..], sep, j2 - n) && forall k' :: 0 <= k' < j2 - n ==> !Occurs(s[n..], sep, k')
  {
    var n := j1 + |sep|;
    OccursIntoSuffix(s, n, sep, j2);
    NoneInSuffixBefore(s, n, sep, j2 - n, j1);
  }

  /** The second piece of a split is the text between the first and the second occurrence of the separator. */
  lemma SplitSecond(s: string, sep: string, j1: nat, j2: nat)
    requires |sep| > 0 && Occurs(s, sep, j1) && Occurs(s, sep, j2) && j1 + |sep| <= j2
    requires forall k :: Occurs(s, sep, k) && k < j2 ==> k == j1
    ensures |Split(s, sep)| > 1 && Split(s, sep)[1] == s[j1 + |sep|..j2]
  {
    var n := j1 + |sep|;
    var rest := s[n..];
    var k2 := j2 - n;
    SplitFirst(s, sep, j1);
    FirstInSuffix(s, sep, j1, j2);
    calc {
      Split(s, sep)[1];
      Split(rest, sep)[0];
      { SplitFirst(rest, sep, k2); }
      rest[..k2];
      { SliceOfSuffix(s, n, k2); }
      s[n..j2];
    }
  }

  /**
   * Repeated end marker: only the text between its first and its second occurrence
   * is kept as the suffix; whatever follows the second occurrence is dropped.
   */
  lemma SpliceRepeatedEnd(doc: string, table: string, startMarker: string, endMarker: string,
                          i: nat, j1: nat, j2: nat)
    requires |startMarker| > 0 && |endMarker| > 0
    requires OnlyAt(doc, startMarker, i) && i + |startMarker| <= j1
    requires Occurs(doc, endMarker, j1) && Occurs(doc, endMarker, j2) && j1 + |endMarker| <= j2
    requires forall k :: Occurs(doc, endMarker, k) && k < j2 ==> k == j1
    ensures Splice(doc, table, startMarker, endMarker)
            == Ok(doc[..i] + startMarker + "\n" + table + "\n" + endMarker + doc[j1 + |endMarker|..j2])
  {
    SplitOnlyAt(doc, startMarker, i);
    SplitSecond(doc, endMarker, j1, j2);
  }

  /** After a well-formed splice the start marker still occurs only where it was. */
  lemma StartOnlyAtAfterSplice(doc: string, table: string, startMarker: string, i: nat, j: nat)
    requires |startMarker| > 0 && '\n' !in startMarker
    requires OnlyAt(doc, startMarker, i) && i + |startMarker| <= j <= |doc|
    requires forall k :: !Occurs(table, startMarker, k)
    ensures OnlyAt(doc[..i + |startMarker|] + "\n" + table + "\n" + doc[j..], startMarker, i)
  {
    var a, b := doc[..i + |startMarker|], doc[j..];
    var r := a + "\n" + table + "\n" + b;
    assert Occurs(r, startMarker, i) by {
      OccursSlice(doc, startMarker, i);
      OccursSlice(r, startMarker, i);
      assert r[i..i + |startMarker|] == a[i..i + |startMarker|] == doc[i..i + |startMarker|];
    }
    forall k | Occurs(r, startMarker, k) ensures k == i {
      OccursAroundTable(a, table, b, startMarker, k);
      if Occurs(a, startMarker, k) {
        OccursInPrefix(doc, i + |startMarker|, startMarker, k);
      } else {
        OccursInSuffix(doc, j, startMarker, k - |a| - |table| - 2);
      }
    }
  }

  /** After a well-formed splice the end marker occurs only right after the table. */
  lemma EndOnlyAtAfterSplice(doc: string, table: string, endMarker: string, n: nat, j: nat)
    requires |endMarker| > 0 && '\n' !in endMarker
    requires n <= j && OnlyAt(doc, endMarker, j)
    requires forall k :: !Occurs(table, endMarker, k)
    ensures OnlyAt(doc[..n] + "\n" + table + "\n" + doc[j..], endMarker, n + |table| + 2)
  {
    var a, b := doc[..n], doc[j..];
    var r := a + "\n" + table + "\n" + b;
    var j' := n + |table| + 2;
    assert Occurs(r, endMarker, j') by {
      OccursSlice(doc, endMarker, j);
      OccursSlice(r, endMarker, j');
      assert r[j'..j' + |endMarker|] == b[..|endMarker|] == doc[j..j + |endMarker|];
    }
    forall k | Occurs(r, endMarker, k) ensures k == j' {
      OccursAroundTable(a, table, b, endMarker, k);
      if Occurs(a, endMarker, k) {
        OccursInPrefix(doc, n, endMarker, k);
      } else {
        OccursInSuffix(doc, j, endMarker, k - j');
      }
    }
  }

  /**
   * Splicing the same table into a well-formed report a second time changes nothing,
   * provided the table itself contains neither marker.
   */
  lemma SpliceIdempotent(doc: string, table: string, startMarker: string, endMarker: string, i: nat, j: nat)
    requires OneLineMarkers(startMarker, endMarker)
    requires OnlyAt(doc, startMarker, i) && OnlyAt(doc, endMarker, j) && i + |startMarker| <= j
    requires forall k :: !Occurs(table, startMarker, k) && !Occurs(table, endMarker, k)
    ensures Splice(doc, table, startMarker, endMarker).Ok?
    ensures var once := Splice(doc, table, startMarker, endMarker).value;
            Splice(once, table, startMarker, endMarker) == Ok(once)
  {
    SpliceWellFormed(doc, table, startMarker, endMarker, i, j);
    var n := i + |startMarker|;
    var a, b := doc[..n], doc[j..];
    var rest := doc[j + |endMarker|..];
    var r := a + "\n" + table + "\n" + b;
    assert r == doc[..i] + startMarker + "\n" + table + "\n" + endMarker + rest by {
      OccursSlice(doc, startMarker, i);
      OccursSlice(doc, endMarker, j);
      assert a == doc[..i] + startMarker;
      assert b == endMarker + rest;
      var c := doc[..i] + startMarker + "\n" + table + "\n";
      assert r == c + b;
      assert c + (endMarker + rest) == c + endMarker + rest;
    }
    var j' := n + |table| + 2;
    StartOnlyAtAfterSplice(doc, table, startMarker, i, j);
    EndOnlyAtAfterSplice(doc, table, endMarker, n, j);
    SpliceWellFormed(r, table, startMarker, endMarker, i, j');
    assert r[..i] == doc[..i];
    assert r[j' + |endMarker|..] == rest;
  }
}
