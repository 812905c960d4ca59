/**
 * Payeer's signature scheme, used in both directions: the upper-cased
 * hexadecimal SHA-256 of an ordered field list joined with ':'. The hash
 * function itself is a parameter; nothing is assumed about it.
 */
module Signing {
  import opened Text

  /** JString::strtoupper(hash('sha256', implode(':', fields))) */
  function Sign(fields: seq<string>, hash: string -> string): (sig: string)
    ensures |sig| == |hash(Join(fields, ':'))|
    ensures forall i :: 0 <= i < |sig| ==> !IsLowerAscii(sig[i])
  {
    Upper(hash(Join(fields, ':')))
  }

  /** The hashed list of the payment form: shop, order id, amount, currency, description, secret. */
  function OutboundFields(merchantId: string, orderId: string, amount: string, currency: string,
                          description: string, secret: string): seq<string>
  {
    [merchantId, orderId, amount, currency, description, secret]
  }

  /**
   * The field order is part of the signature: two non-empty lists of
   * ':'-free fields that sign alike under every hash function are the same
   * list, in the same order.
   */
  lemma SignatureFixesFieldList(a: seq<string>, b: seq<string>)
    requires |a| >= 1 && |b| >= 1
    requires forall i :: 0 <= i < |a| ==> ':' !in a[i]
    requires forall i :: 0 <= i < |b| ==> ':' !in b[i]
    requires forall hash: string -> string :: Sign(a, hash) == Sign(b, hash)
    ensures a == b
  {
    var joined := Join(a, ':');
    var probe: string -> string := s => if s == joined then "A" else "B";
    assert Sign(a, probe) == Sign(b, probe);
    assert probe(joined) == "A";
    assert Upper("A")[0] == 'A' && Upper("B")[0] == 'B';
    if Join(b, ':') != joined {
      assert false;
    }
    JoinInjective(a, b, ':');
  }
}
