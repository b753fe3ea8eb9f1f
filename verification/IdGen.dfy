/** `idgen.NewN` (idgen/idgen.go). The random source is a list of draws. */
module IdGen {
  import opened Wrappers
  import Names

  const SIZE := 62

  /** The alphabet: lower case, upper case, digits. */
  function Letter(i: nat): char
    requires i < SIZE
  {
    if i < 26 then ('a' as int + i) as char
    else if i < 52 then ('A' as int + i - 26) as char
    else ('0' as int + i - 52) as char
  }

  /** One call of the random source: an index below the alphabet's size, or a failure,
      on which the code panics. */
  type Draw = d: Option<nat> | d.Some? ==> d.value < SIZE witness None

  predicate AllDrawn(draws: seq<Draw>) {
    forall i :: 0 <= i < |draws| ==> draws[i].Some?
  }

  /** The identifier that a list of draws spells. */
  function Spelled(draws: seq<Draw>): (id: string)
    requires AllDrawn(draws)
    ensures |id| == |draws|
    ensures forall i :: 0 <= i < |draws| ==> id[i] == Letter(draws[i].value)
  {
    if draws == [] then "" else Spelled(draws[..|draws| - 1]) + [Letter(draws[|draws| - 1].value)]
  }

  /** `idgen.New`: ten characters. */
  method New(draws: seq<Draw>) returns (id: Option<string>)
    requires 10 <= |draws|
    ensures id.Some? <==> AllDrawn(draws[..10])
    ensures id.Some? ==> |id.value| == 10 && id.value == Spelled(draws[..10])
  {
    id := NewN(10, draws);
  }

  method NewN(n: nat, draws: seq<Draw>) returns (id: Option<string>)
    requires n <= |draws|
    ensures id.Some? <==> AllDrawn(draws[..n])
    ensures id.Some? ==> id.value == Spelled(draws[..n])
  {
    var b := new char[n];
    var i := 0;
    while i < n
      invariant 0 <= i <= n
      invariant forall j :: 0 <= j < i ==> draws[j].Some? && b[j] == Letter(draws[j].value)
    {
      if draws[i].None? {
        assert !AllDrawn(draws[..n]) by {
          assert draws[..n][i].None?;
        }
        return None;
      }
      b[i] := Letter(draws[i].value);
      i := i + 1;
    }
    assert b[..] == Spelled(draws[..n]);
    id := Some(b[..]);
  }

  /** Identifiers have no dot and no slash, so they can be keys and path segments. */
  lemma SpelledIsPlain(draws: seq<Draw>)
    requires AllDrawn(draws)
    ensures Names.Plain(Spelled(draws))
  {
  }

  /** Different draws spell different identifiers, so `NewN(n)` ranges over 62^n of them. */
  lemma SpelledInjective(a: seq<Draw>, b: seq<Draw>)
    requires AllDrawn(a) && AllDrawn(b) && Spelled(a) == Spelled(b)
    ensures a == b
  {
  }

  /** Identifiers are made of letters and digits, and of all 62 of them. */
  lemma LettersAndDigits(draws: seq<Draw>, c: char)
    requires AllDrawn(draws)
    ensures c in Spelled(draws) ==> 'a' <= c <= 'z' || 'A' <= c <= 'Z' || '0' <= c <= '9'
    ensures 'a' <= c <= 'z' || 'A' <= c <= 'Z' || '0' <= c <= '9' ==> exists i: nat :: i < 62 && Letter(i) == c
  {
    if 'a' <= c <= 'z' {
      assert Letter(c as int - 'a' as int) == c;
    } else if 'A' <= c <= 'Z' {
      assert Letter(26 + c as int - 'A' as int) == c;
    } else if '0' <= c <= '9' {
      assert Letter(52 + c as int - '0' as int) == c;
    }
  }
}
