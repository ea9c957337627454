/** The behaviours the repository's tests check, stated for the model. */
module DropConnectionScenarios {
  import opened Wrappers
  import opened Strconv
  import opened DropConnection

  /** The bytes of "It works!", the body the tests' next handler writes. */
  const ItWorks: seq<byte> := [73, 116, 32, 119, 111, 114, 107, 115, 33]

  /** The tests' next handler: one Write of "It works!" and no WriteHeader. */
  const DefaultContext: seq<Event> := [Write(ItWorks)]

  /** No configuration: the handler is built with a zero range and every request is dropped, with an empty body. */
  lemma EmptyConfigDrops(rw: Writer, next: seq<Event>)
    ensures New(Config("")) == Success(Handler(0, 0))
    ensures NoBody(Served(Handler(0, 0), rw, next))
    ensures Served(Handler(0, 0), Plain, DefaultContext) == [SendHeader(StatusInternalServerError)]
  {
  }

  /** "300-599": the default 200 lies outside the range, so status 200 and "It works!" are replayed. */
  lemma OutsideRangeReplays(rw: Writer)
    ensures New(Config("300-599")) == Success(Handler(300, 599))
    ensures Served(Handler(300, 599), rw, DefaultContext) == [SendHeader(StatusOK), SendBody(ItWorks)]
  {
    assert Itoa(300) + "-" + Itoa(599) == "300-599";
    NewItoa(300, 599);
    NoWriteHeaderMeansOK(DefaultContext);
    assert DefaultContext[..0] == [];
    assert Captured(DefaultContext) == Captured([]) + ItWorks;
    assert Captured(DefaultContext) == ItWorks;
    assert EffectiveStatus(DefaultContext) == StatusOK;
    assert Replays(Handler(300, 599), StatusOK);
  }

  /**
   * "100-599": the default 200 lies inside the range, so the request is
   * dropped and no body is sent. The test's recorder cannot be hijacked, so it
   * receives a 500.
   */
  lemma InsideRangeDrops(rw: Writer)
    ensures New(Config("100-599")) == Success(Handler(100, 599))
    ensures NoBody(Served(Handler(100, 599), rw, DefaultContext))
    ensures Served(Handler(100, 599), Plain, DefaultContext) == [SendHeader(StatusInternalServerError)]
  {
    assert Itoa(100) + "-" + Itoa(599) == "100-599";
    NewItoa(100, 599);
    NoWriteHeaderMeansOK(DefaultContext);
  }

  /** "abc-599": the first token is not a number, so construction fails and no handler exists. */
  lemma NonNumericStartRejected()
    ensures New(Config("abc-599")) == Failure(StartCodeError(ErrSyntax))
  {
  }
}
