/** Building the question bank from the provider's raw records: the `map`
    inside `handleSubmit` (src/App.jsx). */
module QuestionBank {

  /** A record as the trivia provider sends it; every text is entity-escaped. */
  datatype RawRecord = RawRecord(question: string, correctAnswer: string, incorrectAnswers: seq<string>)

  /** A question as the session presents it. */
  datatype Question = Question(id: string, question: string, answer: string, options: seq<string>)

  /** The browser services the builder calls: the DOM's entity unescaping
      (`decodeString`), the clock reading taken for the record at a given
      position (`Date.now()`), and the random choices (`Math.random`) the sort
      consumes for the options of the record at a given position. */
  datatype Host = Host(decode: string -> string, clock: nat -> nat, shuffle: nat -> seq<nat>)

  function Digit(d: nat): (c: char)
    requires d < 10
    ensures '0' <= c <= '9'
  {
    (48 + d) as char
  }

  /** The decimal text JavaScript's template literal gives a non-negative integer. */
  function DecimalString(n: nat): (r: string)
    ensures |r| >= 1
    ensures n >= 10 ==> |r| >= 2
    ensures forall k :: 0 <= k < |r| ==> '0' <= r[k] <= '9'
  {
    if n < 10 then [Digit(n)] else DecimalString(n / 10) + [Digit(n % 10)]
  }

  /** Different numbers print differently. */
  lemma {:induction false} DecimalInjective(a: nat, b: nat)
    requires DecimalString(a) == DecimalString(b)
    ensures a == b
  {
    var x := DecimalString(a);
    assert Digit(a % 10) == x[|x| - 1] == Digit(b % 10);
    if a >= 10 && b >= 10 {
      assert DecimalString(a / 10) == x[..|x| - 1] == DecimalString(b / 10);
      DecimalInjective(a / 10, b / 10);
    }
  }

  /** `${index}-${Date.now()}` */
  function IdString(index: nat, now: nat): (id: string)
    ensures |id| == |DecimalString(index)| + 1 + |DecimalString(now)|
    ensures var prefix := DecimalString(index);
      && id[..|prefix|] == prefix && id[|prefix|] == '-' && id[|prefix| + 1..] == DecimalString(now)
  {
    DecimalString(index) + "-" + DecimalString(now)
  }

  /** Two records at different positions get different ids, whatever the
      clock read for each: the id starts with the position and a dash. */
  lemma IdsDistinct(i: nat, j: nat, ti: nat, tj: nat)
    requires i != j
    ensures IdString(i, ti) != IdString(j, tj)
  {
    var x, y := DecimalString(i), DecimalString(j);
    var u, v := IdString(i, ti), IdString(j, tj);
    assert u[|x|] == '-' && v[|y|] == '-';
    if |x| < |y| {
      assert v[|x|] == y[|x|];
    } else if |y| < |x| {
      assert u[|y|] == x[|y|];
    } else if u == v {
      assert x == u[..|x|] == y;
      DecimalInjective(i, j);
    }
  }

  /** The order `sort(() => Math.random() - 0.5)` leaves: a permutation of
      `s`, chosen by `picks`. Each pick selects (modulo what is left) the
      element to place next; `PermuteReachesEvery` shows that every
      permutation is some `picks`'s result. */
  function Permute<T(==)>(s: seq<T>, picks: seq<nat>): (r: seq<T>)
    ensures |r| == |s|
    ensures multiset(r) == multiset(s)
    decreases |s|
  {
    if |s| == 0 then []
    else
      var k := (if picks == [] then 0 else picks[0]) % |s|;
      [s[k]] + Permute(RemoveAt(s, k), if picks == [] then [] else picks[1..])
  }

  /** `s` without its element at `k`. */
  function RemoveAt<T>(s: seq<T>, k: nat): (r: seq<T>)
    requires k < |s|
    ensures |r| == |s| - 1
    ensures multiset(r) == multiset(s) - multiset{s[k]}
  {
    assert s == s[..k] + [s[k]] + s[k + 1..];
    s[..k] + s[k + 1..]
  }

  /** A first pick below the length places that element first. */
  lemma PermuteStep<T>(s: seq<T>, picks: seq<nat>)
    requires 0 < |picks| && picks[0] < |s|
    ensures Permute(s, picks) == [s[picks[0]]] + Permute(RemoveAt(s, picks[0]), picks[1..])
  {
    assert picks[0] % |s| == picks[0];
  }

  /** Matching heads leave matching rests. */
  lemma SameRest<T>(s: seq<T>, r: seq<T>, k: nat)
    requires multiset(r) == multiset(s) && k < |s| && 0 < |r| && s[k] == r[0]
    ensures multiset(r[1..]) == multiset(RemoveAt(s, k))
  {
    assert RemoveAt(r, 0) == r[1..];
  }

  /** A non-empty sequence is its head followed by its rest. */
  lemma HeadAndRest<T>(r: seq<T>)
    requires 0 < |r|
    ensures [r[0]] + r[1..] == r
  {
  }

  /** Every reordering of `s` is what `Permute` gives for some picks. */
  lemma {:induction false} PermuteReachesEvery<T>(s: seq<T>, r: seq<T>)
    requires multiset(r) == multiset(s)
    ensures exists picks :: Permute(s, picks) == r
    decreases |s|
  {
    assert |r| == |multiset(r)| == |s|;
    if |s| == 0 {
      assert Permute(s, []) == r;
    } else {
      assert r[0] in multiset(s);
      var k :| 0 <= k < |s| && s[k] == r[0];
      var rest := RemoveAt(s, k);
      SameRest(s, r, k);
      PermuteReachesEvery(rest, r[1..]);
      var tail :| Permute(rest, tail) == r[1..];
      var picks := [k] + tail;
      assert picks[0] == k && picks[1..] == tail;
      PermuteStep(s, picks);
      assert Permute(s, picks) == [s[k]] + r[1..];
      HeadAndRest(r);
    }
  }

  function DecodeAll(decode: string -> string, texts: seq<string>): (r: seq<string>)
    ensures |r| == |texts|
    ensures forall k :: 0 <= k < |texts| ==> r[k] == decode(texts[k])
  {
    seq(|texts|, k requires 0 <= k < |texts| => decode(texts[k]))
  }

  /** The question built for the record at `index`. */
  function BuildQuestion(index: nat, rec: RawRecord, host: Host): (q: Question)
    ensures q.id == IdString(index, host.clock(index))
    ensures q.question == host.decode(rec.question)
    ensures q.answer == host.decode(rec.correctAnswer)
    ensures |q.options| == |rec.incorrectAnswers| + 1
    ensures multiset(q.options) == multiset(DecodeAll(host.decode, rec.incorrectAnswers)) + multiset{q.answer}
    ensures q.answer in q.options
  {
    var answer := host.decode(rec.correctAnswer);
    var wrongAnswers := DecodeAll(host.decode, rec.incorrectAnswers) + [answer];
    var options := Permute(wrongAnswers, host.shuffle(index));
    assert answer in multiset(options);
    Question(IdString(index, host.clock(index)), host.decode(rec.question), answer, options)
  }

  /** What every bank the session holds satisfies: ids are pairwise distinct
      and every question offers its own answer. */
  predicate WellFormedBank(bank: seq<Question>) {
    && (forall i, j :: 0 <= i < j < |bank| ==> bank[i].id != bank[j].id)
    && (forall i :: 0 <= i < |bank| ==> bank[i].answer in bank[i].options)
  }

  /** `results.map(...)`: one question per record, same length, same order. */
  function BuildBank(results: seq<RawRecord>, host: Host): (bank: seq<Question>)
    ensures |bank| == |results|
    ensures forall i :: 0 <= i < |results| ==>
      && bank[i].id == IdString(i, host.clock(i))
      && bank[i].question == host.decode(results[i].question)
      && bank[i].answer == host.decode(results[i].correctAnswer)
      && |bank[i].options| == |results[i].incorrectAnswers| + 1
      && multiset(bank[i].options) == multiset(DecodeAll(host.decode, results[i].incorrectAnswers)) + multiset{bank[i].answer}
    ensures WellFormedBank(bank)
  {
    var bank := seq(|results|, i requires 0 <= i < |results| => BuildQuestion(i, results[i], host));
    forall i, j | 0 <= i < j < |bank| ensures bank[i].id != bank[j].id {
      IdsDistinct(i, j, host.clock(i), host.clock(j));
    }
    bank
  }
}
