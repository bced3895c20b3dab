/** The key under which SaveOrder stores an attachment (mail/internal/storage/repo.go). */
module ObjectKeys {
  import opened Text

  /** fmt.Sprintf("%d/%d/%d_%s", userID, emailUID, i+1, name) */
  function ObjectKey(user: nat, uid: nat, index: nat, name: string): string {
    Decimal(user) + "/" + Decimal(uid) + "/" + Decimal(index) + "_" + name
  }

  ghost predicate Digits(s: string) { forall k :: 0 <= k < |s| ==> '0' <= s[k] <= '9' }

  lemma {:induction false} DecimalDigits(n: nat)
    ensures Digits(Decimal(n)) && Decimal(n) != ""
  {
    if n >= 10 {
      DecimalDigits(n / 10);
    }
  }

  lemma {:induction false} DecimalInjective(m: nat, n: nat)
    requires Decimal(m) == Decimal(n)
    ensures m == n
    decreases m + n
  {
    DecimalDigits(m / 10);
    DecimalDigits(n / 10);
    var a, b := Decimal(m), Decimal(n);
    assert a[|a| - 1] == b[|b| - 1];
    if m >= 10 && n >= 10 {
      assert Decimal(m / 10) == a[..|a| - 1] == b[..|b| - 1] == Decimal(n / 10);
      DecimalInjective(m / 10, n / 10);
    } else if m >= 10 || n >= 10 {
      assert |a| == |b|;
    }
  }

  /** The digits a text starts with. */
  function Leading(s: string): string {
    if s != "" && '0' <= s[0] <= '9' then [s[0]] + Leading(s[1..]) else ""
  }

  lemma {:induction false} LeadingDigits(a: string, sep: char, rest: string)
    requires Digits(a) && !('0' <= sep <= '9')
    ensures Leading(a + [sep] + rest) == a
  {
    var s := a + [sep] + rest;
    if a != "" {
      LeadingDigits(a[1..], sep, rest);
      assert s[1..] == a[1..] + [sep] + rest;
    }
  }

  /** Digits before a separator that is no digit can be read off. */
  lemma SplitAtSeparator(a: string, b: string, sep: char, restA: string, restB: string)
    requires Digits(a) && Digits(b) && !('0' <= sep <= '9')
    requires a + [sep] + restA == b + [sep] + restB
    ensures a == b && restA == restB
  {
    LeadingDigits(a, sep, restA);
    LeadingDigits(b, sep, restB);
    assert restA == (a + [sep] + restA)[|a| + 1..] == restB;
  }

  lemma FieldInjective(n: nat, sep: char, rest: string, n': nat, rest': string)
    requires !('0' <= sep <= '9') && Decimal(n) + [sep] + rest == Decimal(n') + [sep] + rest'
    ensures n == n' && rest == rest'
  {
    DecimalDigits(n);
    DecimalDigits(n');
    SplitAtSeparator(Decimal(n), Decimal(n'), sep, rest, rest');
    DecimalInjective(n, n');
  }

  lemma KeyShape(user: nat, uid: nat, index: nat, name: string)
    ensures ObjectKey(user, uid, index, name)
            == Decimal(user) + ['/'] + (Decimal(uid) + ['/'] + (Decimal(index) + ['_'] + name))
  {
  }

  /** For example the first file of message 90 of user 1. */
  lemma KeyExample(name: string)
    ensures ObjectKey(1, 90, 1, name) == "1/90/1_" + name
  {
    assert Decimal(1) == "1" && Decimal(90) == Decimal(9) + "0" && Decimal(9) == "9";
    assert "1" + "/" + "90" + "/" + "1" + "_" == "1/90/1_";
  }

  /** Two attachments share a key only if user, message, place and name are the same. */
  lemma KeyInjective(user: nat, uid: nat, index: nat, name: string, user': nat, uid': nat, index': nat, name': string)
    requires ObjectKey(user, uid, index, name) == ObjectKey(user', uid', index', name')
    ensures user == user' && uid == uid' && index == index' && name == name'
  {
    KeyShape(user, uid, index, name);
    KeyShape(user', uid', index', name');
    var last, last' := Decimal(index) + ['_'] + name, Decimal(index') + ['_'] + name';
    FieldInjective(user, '/', Decimal(uid) + ['/'] + last, user', Decimal(uid') + ['/'] + last');
    FieldInjective(uid, '/', last, uid', last');
    FieldInjective(index, '_', name, index', name');
  }
}
