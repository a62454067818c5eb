/** How fields and numbers are spelled, wherever the text of a query names them (search/query.py). */
module Spelling {
  import opened Query

  function NameOf(field: Field): string {
    match field
    case Title => "title"
    case Abstract => "abstract"
    case Body => "body"
  }

  function FieldNamed(name: string): Option<Field> {
    if name == "title" then Some(Title)
    else if name == "abstract" then Some(Abstract)
    else if name == "body" then Some(Body)
    else None
  }

  function Digit(n: nat): char
    requires n < 10
  {
    "0123456789"[n]
  }

  function Digits(n: nat): string {
    if n < 10 then [Digit(n)] else Digits(n / 10) + [Digit(n % 10)]
  }

  function DigitOf(c: char): Option<nat> {
    if '0' <= c <= '9' then Some(c as int - '0' as int) else None
  }

  function ReadNumber(word: string): (r: Option<nat>)
    ensures r.Some? <==> forall k :: 0 <= k < |word| ==> DigitOf(word[k]).Some?
  {
    if word == [] then Some(0)
    else
      match (ReadNumber(word[..|word| - 1]), DigitOf(word[|word| - 1]))
      case (Some(n), Some(d)) => Some(10 * n + d)
      case _ => None
  }

  lemma ReadOneMore(word: string, n: nat, digit: nat)
    requires digit < 10 && ReadNumber(word) == Some(n)
    ensures ReadNumber(word + [Digit(digit)]) == Some(10 * n + digit)
  {
    assert (word + [Digit(digit)])[..|word|] == word;
  }

  /** A number is read back from its digits. */
  lemma {:induction false} NumberReadsBack(n: nat)
    ensures Digits(n) != [] && ReadNumber(Digits(n)) == Some(n)
  {
    if n < 10 {
      ReadOneMore([], 0, n);
      assert [] + [Digit(n)] == Digits(n);
    } else {
      NumberReadsBack(n / 10);
      ReadOneMore(Digits(n / 10), n / 10, n % 10);
    }
  }
}
