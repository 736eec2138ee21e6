/** How a session and an order number are packed into one 64-bit order id. */
module OrderIds {
  import opened TradingTypes

  const TWO_TO_THE_16: nat := 0x1_0000
  const TWO_TO_THE_32: nat := 0x1_0000_0000
  const TWO_TO_THE_48: nat := 0x1_0000_0000_0000
  const TWO_TO_THE_64: nat := 0x1_0000_0000_0000_0000

  /** The session shifted up by 48 bits, or'd with the low 48 bits of the number: the bits do not overlap. */
  function GenerateOrderId(session: SessionId, orderNum: nat): OrderId {
    session * TWO_TO_THE_48 + orderNum % TWO_TO_THE_48
  }

  /** The top 16 bits. */
  function SessionOf(id: OrderId): SessionId {
    (id / TWO_TO_THE_48) % TWO_TO_THE_16
  }

  /** The low 48 bits. */
  function OrderNumOf(id: OrderId): nat {
    id % TWO_TO_THE_48
  }

  lemma Unpacks(session: SessionId, orderNum: nat)
    requires session < TWO_TO_THE_16
    ensures
      var id := GenerateOrderId(session, orderNum);
      && id < TWO_TO_THE_64 && SessionOf(id) == session && OrderNumOf(id) == orderNum % TWO_TO_THE_48
      && id / TWO_TO_THE_48 == session && id % TWO_TO_THE_48 == orderNum % TWO_TO_THE_48
  {
  }

  lemma Repacks(id: OrderId)
    requires id < TWO_TO_THE_64
    ensures SessionOf(id) < TWO_TO_THE_16 && GenerateOrderId(SessionOf(id), OrderNumOf(id)) == id
  {
  }

  /** Two orders share an id exactly when they share the session and the low 48 bits of the number. */
  lemma SameIdIff(session: SessionId, orderNum: nat, session': SessionId, orderNum': nat)
    requires session < TWO_TO_THE_16 && session' < TWO_TO_THE_16
    ensures
      GenerateOrderId(session, orderNum) == GenerateOrderId(session', orderNum') <==>
        session == session' && orderNum % TWO_TO_THE_48 == orderNum' % TWO_TO_THE_48
  {
    Unpacks(session, orderNum);
    Unpacks(session', orderNum');
  }

  /** The session id of the n-th connection ever. */
  function SessionOfConnection(n: nat): SessionId {
    (n % TWO_TO_THE_32) % TWO_TO_THE_16
  }

  lemma LowBits(n: nat)
    ensures SessionOfConnection(n) == n % TWO_TO_THE_16
  {
    var q, r := n / TWO_TO_THE_32, n % TWO_TO_THE_32;
    assert n == (q * TWO_TO_THE_16 + r / TWO_TO_THE_16) * TWO_TO_THE_16 + r % TWO_TO_THE_16;
  }

  /** A session id comes back after 2^16 connections, and not before. */
  lemma SessionIdsRepeat(m: nat, n: nat)
    ensures SessionOfConnection(m) == SessionOfConnection(n) <==> (m - n) % TWO_TO_THE_16 == 0
  {
    LowBits(m);
    LowBits(n);
    hide SessionOfConnection;
    var q, q' := m / TWO_TO_THE_16, n / TWO_TO_THE_16;
    assert m - n == (q - q') * TWO_TO_THE_16 + (m % TWO_TO_THE_16 - n % TWO_TO_THE_16);
  }
}
