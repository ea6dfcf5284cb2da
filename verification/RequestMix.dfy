/** Which class of request each sequence number draws, and how the classes share a run. */
module RequestMix {

  datatype Class = PortalHTML | PortalAsset | DashAuth | DashExcluded

  function ClassOf(seqNo: nat, excludedPct: int): Class {
    if excludedPct > 0 && seqNo % 100 < excludedPct then DashExcluded
    else if seqNo % 10 < 7 then PortalHTML
    else if seqNo % 10 == 7 then PortalAsset
    else DashAuth
  }

  /** How many of the `n` sequence numbers from `start` on fall in a class. */
  function CountClass(start: nat, n: nat, pct: int, class': Class): nat {
    if n == 0 then 0 else
    CountClass(start, n - 1, pct, class') + if ClassOf(start + n - 1, pct) == class' then 1 else 0
  }

  lemma Periodic(seqNo: nat, pct: int)
    ensures ClassOf(seqNo + 100, pct) == ClassOf(seqNo, pct)
  {
    assert (seqNo + 100) % 100 == seqNo % 100;
    assert (seqNo + 100) % 10 == seqNo % 10;
  }

  lemma {:induction false} CountSplit(start: nat, a: nat, b: nat, pct: int, class': Class)
    ensures CountClass(start, a + b, pct, class') == CountClass(start, a, pct, class') + CountClass(start + a, b, pct, class')
  {
    hide ClassOf;
    if b > 0 {
      CountSplit(start, a, b - 1, pct, class');
      assert start + a + b - 1 == start + (a + b) - 1;
    }
  }

  /** Any hundred consecutive numbers are shared like the first hundred. */
  lemma {:induction false} AnyHundredIsAlike(start: nat, pct: int, class': Class)
    ensures CountClass(start, 100, pct, class') == CountClass(0, 100, pct, class')
  {
    hide ClassOf, CountClass;
    if start > 0 {
      AnyHundredIsAlike(start - 1, pct, class');
      CountSplit(start - 1, 1, 99, pct, class');
      CountSplit(start, 99, 1, pct, class');
      One(start - 1, pct, class');
      One(start + 99, pct, class');
      Periodic(start - 1, pct);
    }
  }

  lemma One(start: nat, pct: int, class': Class)
    ensures CountClass(start, 1, pct, class') == if ClassOf(start, pct) == class' then 1 else 0
  {
    hide ClassOf;
    assert CountClass(start, 0, pct, class') == 0;
  }

  function Least(a: nat, b: nat): nat {
    if a < b then a else b
  }

  /** How many of the first `n` numbers a class would get if none were excluded. */
  function Unexcluded(n: nat, class': Class): nat {
    match class'
    case PortalHTML => 7 * (n / 10) + Least(n % 10, 7)
    case PortalAsset => n / 10 + if n % 10 > 7 then 1 else 0
    case DashAuth => 2 * (n / 10) + if n % 10 > 8 then 1 else 0
    case DashExcluded => 0
  }

  lemma UnexcludedNext(n: nat, class': Class)
    ensures Unexcluded(n + 1, class') == Unexcluded(n, class') + if ClassOf(n, 0) == class' then 1 else 0
  {
    if n % 10 == 9 {
      assert (n + 1) / 10 == n / 10 + 1 && (n + 1) % 10 == 0;
    } else {
      assert (n + 1) / 10 == n / 10 && (n + 1) % 10 == n % 10 + 1;
    }
  }

  lemma {:induction false} CountPrefix(n: nat, pct: nat, class': Class)
    requires pct <= n <= 100
    ensures CountClass(0, n, pct, class') ==
            if class' == DashExcluded then pct else Unexcluded(n, class') - Unexcluded(pct, class')
  {
    hide Unexcluded;
    if n == pct {
      AllExcluded(n, pct, class');
    } else {
      CountPrefix(n - 1, pct, class');
      UnexcludedNext(n - 1, class');
      assert (n - 1) % 100 == n - 1;
    }
  }

  lemma {:induction false} AllExcluded(n: nat, pct: nat, class': Class)
    requires n <= pct <= 100
    ensures CountClass(0, n, pct, class') == if class' == DashExcluded then n else 0
  {
    if n > 0 {
      AllExcluded(n - 1, pct, class');
      assert (n - 1) % 100 == n - 1;
    }
  }

  /** What each class gets out of a hundred. */
  function Share(pct: nat, class': Class): int {
    if class' == DashExcluded then pct else Unexcluded(100, class') - Unexcluded(pct, class')
  }

  /** Any `k` hundreds of consecutive numbers, wherever they start, give each class exactly `k`
      times its share; excluded requests get their percentage. */
  lemma {:induction false} SharesAreExact(start: nat, k: nat, pct: nat, class': Class)
    requires pct <= 100
    ensures CountClass(start, k * 100, pct, class') == k * Share(pct, class')
    ensures CountClass(start, k * 100, pct, DashExcluded) == k * pct
  {
    hide CountClass, ClassOf, Unexcluded;
    if k == 0 {
      Nothing(start, pct, class');
      Nothing(start, pct, DashExcluded);
    } else {
      SharesAreExact(start, k - 1, pct, class');
      OneHundred(start + (k - 1) * 100, pct, class');
      OneHundred(start + (k - 1) * 100, pct, DashExcluded);
      CountSplit(start, (k - 1) * 100, 100, pct, class');
      CountSplit(start, (k - 1) * 100, 100, pct, DashExcluded);
      assert (k - 1) * 100 + 100 == k * 100;
      assert (k - 1) * Share(pct, class') + Share(pct, class') == k * Share(pct, class');
      assert (k - 1) * pct + pct == k * pct;
    }
  }

  lemma Nothing(start: nat, pct: int, class': Class)
    ensures CountClass(start, 0, pct, class') == 0
  {
  }

  lemma OneHundred(start: nat, pct: nat, class': Class)
    requires pct <= 100
    ensures CountClass(start, 100, pct, class') == Share(pct, class')
  {
    hide CountClass, Unexcluded;
    AnyHundredIsAlike(start, pct, class');
    CountPrefix(100, pct, class');
  }

  /** The requests that are not excluded split 7 : 1 : 2 exactly when the excluded percentage is a
      multiple of ten: otherwise the excluded slots cut into a block of ten. */
  lemma SplitIsSevenOneTwoIffTens(pct: nat)
    requires pct <= 100
    ensures Share(pct, PortalHTML) == 7 * Share(pct, PortalAsset) && Share(pct, DashAuth) == 2 * Share(pct, PortalAsset)
            <==> pct % 10 == 0
  {
    var q, r := pct / 10, pct % 10;
    assert Unexcluded(100, PortalHTML) == 70 && Unexcluded(100, PortalAsset) == 10 && Unexcluded(100, DashAuth) == 20;
  }

  /** With five percent excluded, the rest of any hundred splits 65 : 10 : 20. */
  lemma FivePercentBreaksTheSplit(start: nat)
    ensures CountClass(start, 100, 5, PortalHTML) == 65 && CountClass(start, 100, 5, PortalAsset) == 10
            && CountClass(start, 100, 5, DashAuth) == 20
  {
    hide CountClass;
    OneHundred(start, 5, PortalHTML);
    OneHundred(start, 5, PortalAsset);
    OneHundred(start, 5, DashAuth);
  }
}
