/** Small shared vocabulary: optional values, bytes, duplicate-free
    sequences and the HTTP status codes the handlers answer with. */
module Base {

  datatype Option<+T> = None | Some(value: T)

  /** One byte of a Go string; Go's `len` counts these. */
  newtype byte = x: int | 0 <= x < 256

  type Bytes = seq<byte>

  /** No element occurs twice. */
  ghost predicate NoDup<T>(s: seq<T>) {
    forall i, j :: 0 <= i < j < |s| ==> s[i] != s[j]
  }

  lemma NoDupTail<T>(s: seq<T>)
    requires s != [] && NoDup(s)
    ensures NoDup(s[1..]) && s[0] !in s[1..]
  {
    forall i, j | 0 <= i < j < |s[1..]| ensures s[1..][i] != s[1..][j] {
      assert s[1..][i] == s[i + 1] && s[1..][j] == s[j + 1];
    }
    forall k | 0 <= k < |s[1..]| ensures s[1..][k] != s[0] {
      assert s[1..][k] == s[k + 1];
    }
  }

  lemma NoDupCons<T>(x: T, s: seq<T>)
    requires x !in s && NoDup(s)
    ensures NoDup([x] + s)
  {
    forall i, j | 0 <= i < j < |[x] + s| ensures ([x] + s)[i] != ([x] + s)[j] {
      assert ([x] + s)[j] == s[j - 1];
      if i > 0 {
        assert ([x] + s)[i] == s[i - 1];
      }
    }
  }

  /** `s` lists every element of `xs` exactly once: one possible order in
      which Go's `range` visits the keys of a map. */
  ghost predicate Enumerates<T(!new)>(s: seq<T>, xs: set<T>) {
    NoDup(s) && forall x :: x in s <==> x in xs
  }

  /** `m'` agrees with `m` everywhere except possibly at `k`. */
  ghost predicate AgreeExcept<K(!new), V>(m: map<K, V>, m': map<K, V>, k: K) {
    forall x :: x != k ==> (x in m <==> x in m') && (x in m ==> m[x] == m'[x])
  }

  /** An enumeration of a set is exactly as long as the set is large. */
  lemma {:induction false} EnumerationSize<T(!new)>(s: seq<T>, xs: set<T>)
    requires Enumerates(s, xs)
    ensures |s| == |xs|
  {
    if s == [] {
      assert forall x :: x !in xs;
    } else {
      var rest := xs - {s[0]};
      assert Enumerates(s[1..], rest) by {
        forall i, j | 0 <= i < j < |s[1..]| ensures s[1..][i] != s[1..][j] {
          assert s[1..][i] == s[i + 1] && s[1..][j] == s[j + 1];
        }
        forall x ensures x in s[1..] <==> x in rest {
          if x in s[1..] {
            var k :| 0 <= k < |s[1..]| && s[1..][k] == x;
            assert s[k + 1] == x;
          }
          if x in rest {
            var k :| 0 <= k < |s| && s[k] == x;
            assert k != 0;
            assert s[1..][k - 1] == x;
          }
        }
      }
      EnumerationSize(s[1..], rest);
    }
  }

  // HTTP status codes used by the handlers (the fiber.Status* constants).
  const StatusOK := 200
  const StatusCreated := 201
  const StatusBadRequest := 400
  const StatusUnauthorized := 401
  const StatusConflict := 409
  const StatusInternalServerError := 500
}
