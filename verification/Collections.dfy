/** Small facts about finite sets and sequences. */
module Collections {

  function Elements<T(==)>(s: seq<T>): set<T> {
    set x | x in s
  }

  lemma ElementsAppend<T>(s: seq<T>, x: T)
    ensures Elements(s + [x]) == Elements(s) + {x}
  {
  }

  lemma ElementsPrefix<T>(s: seq<T>, i: nat)
    requires i < |s|
    ensures Elements(s[..i + 1]) == Elements(s[..i]) + {s[i]}
  {
    assert s[..i + 1] == s[..i] + [s[i]];
    ElementsAppend(s[..i], s[i]);
  }

  /** Decimal notation. */
  function Digits(n: nat): (s: string)
    ensures s != []
  {
    if n < 10 then [('0' as int + n) as char] else Digits(n / 10) + [('0' as int + n % 10) as char]
  }

  lemma {:induction false} DigitsInjective(m: nat, n: nat)
    ensures Digits(m) == Digits(n) ==> m == n
  {
    if m >= 10 && n >= 10 {
      var a, b := Digits(m / 10), Digits(n / 10);
      if Digits(m) == Digits(n) {
        assert Digits(m)[|Digits(m)| - 1] == ('0' as int + m % 10) as char;
        assert Digits(m)[..|Digits(m)| - 1] == a && Digits(n)[..|Digits(n)| - 1] == b;
        DigitsInjective(m / 10, n / 10);
      }
    } else if m >= 10 {
      assert |Digits(m)| > 1 == |Digits(n)|;
    } else if n >= 10 {
      assert |Digits(n)| > 1 == |Digits(m)|;
    }
  }

  lemma LastUpdateWins<K, V>(m: map<K, V>, key: K, a: V, b: V)
    ensures m[key := a][key := b] == m[key := b]
  {
  }

  /** Some element of a set; which one is left open. */
  ghost function Pick<T>(s: set<T>): (x: T)
    requires s != {}
    ensures x in s
  {
    var x :| x in s;
    x
  }
}
