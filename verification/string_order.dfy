/** The order of strcmp, by which Gee sorts strings and the generated lookup compares names. */
module StringOrder {

  predicate Before(a: string, b: string) {
    if a == "" then b != ""
    else b != "" && (a[0] < b[0] || (a[0] == b[0] && Before(a[1..], b[1..])))
  }

  lemma {:induction false} BeforeTransitive(a: string, b: string, c: string)
    requires Before(a, b) && Before(b, c)
    ensures Before(a, c)
  {
    if a != "" && a[0] == b[0] == c[0] {
      BeforeTransitive(a[1..], b[1..], c[1..]);
    }
  }

  lemma {:induction false} BeforeTotal(a: string, b: string)
    ensures a == b || Before(a, b) || Before(b, a)
    ensures !(a == b && Before(a, b))
    ensures !(Before(a, b) && Before(b, a))
  {
    if a != "" && b != "" && a[0] == b[0] {
      BeforeTotal(a[1..], b[1..]);
      assert a == [a[0]] + a[1..] && b == [b[0]] + b[1..];
    }
  }

  /** The strings agree before position `i`, and there `a` has ended or has the lower character. */
  predicate LowerAt(a: string, b: string, i: nat) {
    i <= |a| && i < |b| && a[..i] == b[..i] && (i == |a| || a[i] < b[i])
  }

  lemma {:induction false} BeforeIff(a: string, b: string)
    ensures Before(a, b) <==> exists i: nat :: LowerAt(a, b, i)
  {
    assert b != "" && (a == "" || a[0] < b[0]) ==> LowerAt(a, b, 0);
    if a != "" && b != "" {
      BeforeIff(a[1..], b[1..]);
      if Before(a, b) && a[0] == b[0] {
        var i: nat :| LowerAt(a[1..], b[1..], i);
        assert a[..i + 1] == [a[0]] + a[1..][..i] && b[..i + 1] == [b[0]] + b[1..][..i];
        assert LowerAt(a, b, i + 1);
      }
      if i: nat :| LowerAt(a, b, i) && i > 0 {
        assert a[0] == a[..i][0] && b[0] == b[..i][0];
        assert a[1..][..i - 1] == a[..i][1..] && b[1..][..i - 1] == b[..i][1..];
        assert LowerAt(a[1..], b[1..], i - 1);
      }
    }
  }
}
