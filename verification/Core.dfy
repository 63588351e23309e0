/** Types shared by the models of the server, the client and the firmware. */
module Core {
  datatype Option<+T> = None | Some(value: T) {
    function GetOr(default: T): T {
      if Some? then value else default
    }
  }

  ghost predicate Distinct<T>(items: seq<T>) {
    forall i, j :: 0 <= i < j < |items| ==> items[i] != items[j]
  }

  /** A computation that may fail; `:-` stops at the first failure, as the source's `if err != nil { return err }`. */
  datatype Result<+T> = Ok(value: T) | Failed {
    predicate IsFailure() {
      Failed?
    }

    function PropagateFailure<U>(): Result<U>
      requires Failed?
    {
      Failed
    }

    function Extract(): T
      requires Ok?
    {
      value
    }
  }
}

/** The order Go, SQLite and Dart give to ASCII strings, and sorted lists of distinct strings. */
module StringOrder {
  predicate Less(a: string, b: string) {
    b != [] && (a == [] || a[0] < b[0] || (a[0] == b[0] && Less(a[1..], b[1..])))
  }

  lemma Trichotomy(a: string, b: string)
    ensures a == b || Less(a, b) || Less(b, a)
    ensures !(Less(a, b) && Less(b, a))
    ensures a == b ==> !Less(a, b)
  {
    if a != [] && b != [] {
      Trichotomy(a[1..], b[1..]);
      if a[1..] == b[1..] && a[0] == b[0] {
        assert a == [a[0]] + a[1..] && b == [b[0]] + b[1..];
      }
    }
  }

  lemma {:induction false} Transitive(a: string, b: string, c: string)
    requires Less(a, b) && Less(b, c)
    ensures Less(a, c)
  {
    if a != [] && a[0] == b[0] && b[0] == c[0] {
      Transitive(a[1..], b[1..], c[1..]);
    }
  }

  ghost predicate Sorted(s: seq<string>) {
    forall i, j :: 0 <= i < j < |s| ==> Less(s[i], s[j])
  }

  function InsertString(sorted: seq<string>, s: string): seq<string> {
    if sorted == [] || Less(sorted[|sorted| - 1], s) then sorted + [s]
    else InsertString(sorted[..|sorted| - 1], s) + [sorted[|sorted| - 1]]
  }

  lemma {:induction false} InsertStringSorts(sorted: seq<string>, s: string)
    requires Sorted(sorted) && s !in sorted
    ensures Sorted(InsertString(sorted, s))
    ensures forall x :: x in InsertString(sorted, s) <==> x in sorted || x == s
  {
    if sorted != [] {
      var n := |sorted| - 1;
      assert sorted == sorted[..n] + [sorted[n]];
      Trichotomy(sorted[n], s);
      if Less(sorted[n], s) {
        forall i | 0 <= i < n ensures Less(sorted[i], s) {
          Transitive(sorted[i], sorted[n], s);
        }
      } else {
        InsertStringSorts(sorted[..n], s);
        var shorter := InsertString(sorted[..n], s);
        forall i | 0 <= i < |shorter| ensures Less(shorter[i], sorted[n]) {
          assert shorter[i] in shorter;
        }
      }
    }
  }

  lemma LastIsGreatest(s: seq<string>, x: string)
    requires Sorted(s) && x in s
    ensures x == s[|s| - 1] || Less(x, s[|s| - 1])
  {
  }

  /** A set has one sorted list. */
  lemma {:induction false} SortedIsUnique(a: seq<string>, b: seq<string>)
    requires Sorted(a) && Sorted(b) && forall x :: x in a <==> x in b
    ensures a == b
  {
    if a == [] {
      assert forall i :: 0 <= i < |b| ==> b[i] in b;
    } else {
      assert a[|a| - 1] in b;
      var n, m := |a| - 1, |b| - 1;
      assert b[m] in a;
      LastIsGreatest(b, a[n]);
      LastIsGreatest(a, b[m]);
      Trichotomy(a[n], b[m]);
      assert a[n] == b[m];
      forall x ensures x in a[..n] <==> x in b[..m] {
        WithoutLast(a, x);
        WithoutLast(b, x);
      }
      SortedIsUnique(a[..n], b[..m]);
      assert a == a[..n] + [a[n]] && b == b[..m] + [b[m]];
    }
  }

  lemma WithoutLast(s: seq<string>, x: string)
    requires Sorted(s) && s != []
    ensures x in s[..|s| - 1] <==> x in s && x != s[|s| - 1]
  {
    var n := |s| - 1;
    forall i | 0 <= i < n ensures s[i] != s[n] {
      Trichotomy(s[i], s[n]);
    }
    assert s == s[..n] + [s[n]];
  }
}
