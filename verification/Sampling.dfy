/** The draw that decides whether an event or a transaction is sent. */
module Sampling {

  function SampleShouldSend(rate: real, draw: real): bool {
    if rate >= 1.0 then true else if rate <= 0.0 then false else draw < rate
  }

  /** Among the draws from 0 up to, but not, 1, exactly those below the rate say yes; so at rate 1 all, at rate 0 none. */
  lemma SentIffDrawnBelow(rate: real, draw: real)
    requires 0.0 <= draw < 1.0
    ensures SampleShouldSend(rate, draw) <==> draw < rate
  {}
}
