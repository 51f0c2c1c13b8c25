/**
 * Cell values of a table and the orders pandas sorts them by.
 *
 * The pipeline only ever stores strings (syscall names, arguments, labels,
 * time-of-day strings) and integers (epoch seconds, EventId, counts) in a cell.
 * A group key of a multi-column `groupby` is a tuple of cells, compared
 * lexicographically as Python compares tuples.
 */
module Values {

  datatype Value = Str(s: string) | Int(i: int)

  /** A group key: the tuple of a row's values in the grouped columns. */
  datatype Key = Key(parts: seq<Value>)

  /** Python's `<` on `str`: lexicographic by code point, a proper prefix first. */
  predicate StrLess(a: string, b: string)
  {
    if |a| == 0 then |b| > 0
    else if |b| == 0 then false
    else a[0] < b[0] || (a[0] == b[0] && StrLess(a[1..], b[1..]))
  }

  /**
   * The order of sorted group keys: integers by value, strings by `StrLess`,
   * and every integer before every string (pandas' sort of mixed keys).
   */
  predicate ValueLess(u: Value, v: Value)
  {
    match (u, v)
    case (Int(a), Int(b)) => a < b
    case (Int(_), Str(_)) => true
    case (Str(_), Int(_)) => false
    case (Str(a), Str(b)) => StrLess(a, b)
  }

  /** Python's `<` on tuples, with `ValueLess` on the components. */
  predicate PartsLess(p: seq<Value>, q: seq<Value>)
  {
    if |p| == 0 then |q| > 0
    else if |q| == 0 then false
    else ValueLess(p[0], q[0]) || (p[0] == q[0] && PartsLess(p[1..], q[1..]))
  }

  predicate KeyLess(k: Key, l: Key)
  {
    PartsLess(k.parts, l.parts)
  }

  // ---------------------------------------------------------------------------
  // StrLess is a strict total order

  lemma {:induction false} StrLessIrreflexive(a: string)
    ensures !StrLess(a, a)
  {
    if |a| > 0 {
      StrLessIrreflexive(a[1..]);
    }
  }

  lemma {:induction false} StrLessTransitive(a: string, b: string, c: string)
    requires StrLess(a, b) && StrLess(b, c)
    ensures StrLess(a, c)
  {
    if |a| > 0 && a[0] == b[0] && b[0] == c[0] {
      StrLessTransitive(a[1..], b[1..], c[1..]);
    }
  }

  lemma {:induction false} StrLessTotal(a: string, b: string)
    ensures a == b || StrLess(a, b) || StrLess(b, a)
  {
    if |a| > 0 && |b| > 0 && a[0] == b[0] {
      StrLessTotal(a[1..], b[1..]);
      if a[1..] == b[1..] {
        assert a == [a[0]] + a[1..] && b == [b[0]] + b[1..];
      }
    }
  }

  // ---------------------------------------------------------------------------
  // ValueLess is a strict total order

  lemma ValueLessIrreflexive(u: Value)
    ensures !ValueLess(u, u)
  {
    if u.Str? {
      StrLessIrreflexive(u.s);
    }
  }

  lemma ValueLessTransitive(u: Value, v: Value, w: Value)
    requires ValueLess(u, v) && ValueLess(v, w)
    ensures ValueLess(u, w)
  {
    if u.Str? {
      StrLessTransitive(u.s, v.s, w.s);
    }
  }

  lemma ValueLessTotal(u: Value, v: Value)
    ensures u == v || ValueLess(u, v) || ValueLess(v, u)
  {
    if u.Str? && v.Str? {
      StrLessTotal(u.s, v.s);
    }
  }

  // ---------------------------------------------------------------------------
  // KeyLess is a strict total order

  lemma {:induction false} PartsLessIrreflexive(p: seq<Value>)
    ensures !PartsLess(p, p)
  {
    if |p| > 0 {
      ValueLessIrreflexive(p[0]);
      PartsLessIrreflexive(p[1..]);
    }
  }

  lemma {:induction false} PartsLessTransitive(p: seq<Value>, q: seq<Value>, r: seq<Value>)
    requires PartsLess(p, q) && PartsLess(q, r)
    ensures PartsLess(p, r)
  {
    if |p| > 0 && |r| > 0 {
      ValueLessIrreflexive(p[0]);
      ValueLessIrreflexive(q[0]);
      if p[0] == q[0] && q[0] == r[0] {
        PartsLessTransitive(p[1..], q[1..], r[1..]);
      } else if ValueLess(p[0], q[0]) && ValueLess(q[0], r[0]) {
        ValueLessTransitive(p[0], q[0], r[0]);
      }
    }
  }

  lemma {:induction false} PartsLessTotal(p: seq<Value>, q: seq<Value>)
    ensures p == q || PartsLess(p, q) || PartsLess(q, p)
  {
    if |p| > 0 && |q| > 0 {
      ValueLessTotal(p[0], q[0]);
      if p[0] == q[0] {
        PartsLessTotal(p[1..], q[1..]);
        if p[1..] == q[1..] {
          assert p == [p[0]] + p[1..] && q == [q[0]] + q[1..];
        }
      }
    }
  }

  lemma KeyLessIrreflexive(k: Key)
    ensures !KeyLess(k, k)
  {
    PartsLessIrreflexive(k.parts);
  }

  lemma KeyLessTransitive(k: Key, l: Key, m: Key)
    requires KeyLess(k, l) && KeyLess(l, m)
    ensures KeyLess(k, m)
  {
    PartsLessTransitive(k.parts, l.parts, m.parts);
  }

  lemma KeyLessTotal(k: Key, l: Key)
    ensures k == l || KeyLess(k, l) || KeyLess(l, k)
  {
    PartsLessTotal(k.parts, l.parts);
  }

  /** One-column keys compare as their single values do. */
  lemma SingletonKeyLess(u: Value, v: Value)
    ensures KeyLess(Key([u]), Key([v])) <==> ValueLess(u, v)
  {
    assert [u][1..] == [] && [v][1..] == [];
    assert !PartsLess([], []);
    assert PartsLess([u], [v]) == (ValueLess(u, v) || (u == v && PartsLess([], [])));
  }
}
