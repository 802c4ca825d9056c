/** The deposit event on its way through a Redis stream, where every field arrives as a string. */
module EventCodec {
  import opened Decimal
  import Prices

  datatype Value = Text(text: string) | Bytes(bytes: string) | Int(n: int) | Double(x: real) | Nil

  type Fields = map<string, Value>

  function StringFromMap(m: Fields, k: string): string {
    if k !in m then ""
    else match m[k]
      case Text(s) => s
      case Bytes(s) => s
      case _ => ""
  }

  function Int64FromMap(m: Fields, k: string): int {
    if k !in m then 0
    else match m[k]
      case Text(s) => ParseInt64(s)
      case Int(n) => n
      case Double(x) => Prices.Truncate(x)
      case _ => 0
  }

  /** What the stream makes of a value. */
  function Stringified(v: Value): Value {
    match v
    case Int(n) => Text(Print(n))
    case Bytes(s) => Text(s)
    case _ => v
  }

  function Wire(m: Fields): Fields {
    map k | k in m :: Stringified(m[k])
  }

  /** The four fields of an event. */
  function FieldsOf(address: Value, amount: Value, timestamp: Value, txHash: Value): Fields {
    map["address" := address, "amount" := amount, "timestamp" := timestamp, "tx_hash" := txHash]
  }

  lemma KeysDiffer()
    ensures "address" != "amount" && "address" != "timestamp" && "address" != "tx_hash"
    ensures "amount" != "timestamp" && "amount" != "tx_hash" && "timestamp" != "tx_hash"
  {
    assert |"address"| == 7 && |"amount"| == 6 && |"timestamp"| == 9;
    assert "address"[0] == 'a' && "tx_hash"[0] == 't';
  }

  lemma FieldsOnTheWire(address: Value, amount: Value, timestamp: Value, txHash: Value)
    ensures var w := Wire(FieldsOf(address, amount, timestamp, txHash));
      && "address" in w && w["address"] == Stringified(address)
      && "amount" in w && w["amount"] == Stringified(amount)
      && "timestamp" in w && w["timestamp"] == Stringified(timestamp)
      && "tx_hash" in w && w["tx_hash"] == Stringified(txHash)
  {
    KeysDiffer();
  }

  class EscrowDepositEvent {
    var id: string
    var address: string
    var amount: int
    var timestamp: int
    var txHash: string

    constructor (id: string, address: string, amount: int, timestamp: int, txHash: string)
      ensures this.id == id && this.address == address && this.amount == amount
      ensures this.timestamp == timestamp && this.txHash == txHash
    {
      this.id, this.address, this.amount, this.timestamp, this.txHash := id, address, amount, timestamp, txHash;
    }

    function ToMap(): Fields
      reads this
    {
      FieldsOf(Text(address), Int(amount), Int(timestamp), Text(txHash))
    }

    method FromMap(m: Fields)
      modifies this
      ensures address == StringFromMap(m, "address") && amount == Int64FromMap(m, "amount")
      ensures timestamp == Int64FromMap(m, "timestamp") && txHash == StringFromMap(m, "tx_hash")
      ensures id == old(id)
    {
      address := StringFromMap(m, "address");
      amount := Int64FromMap(m, "amount");
      timestamp := Int64FromMap(m, "timestamp");
      txHash := StringFromMap(m, "tx_hash");
    }
  }

  /** Through the stream and back: every field of the event is restored, for every 64-bit amount and timestamp. */
  method ThroughTheStream(e: EscrowDepositEvent, id: string) returns (copy: EscrowDepositEvent)
    requires IsInt64(e.amount) && IsInt64(e.timestamp)
    ensures fresh(copy) && copy.id == id && copy.ToMap() == e.ToMap()
    ensures copy.address == e.address && copy.amount == e.amount
    ensures copy.timestamp == e.timestamp && copy.txHash == e.txHash
  {
    var wire := Wire(e.ToMap());
    FieldsOnTheWire(Text(e.address), Int(e.amount), Int(e.timestamp), Text(e.txHash));
    PrintedIsRestored(wire, "amount", e.amount);
    PrintedIsRestored(wire, "timestamp", e.timestamp);
    copy := new EscrowDepositEvent(id, "", 0, 0, "");
    copy.FromMap(wire);
  }

  lemma PrintedIsRestored(m: Fields, k: string, n: int)
    requires k in m && m[k] == Stringified(Int(n)) && IsInt64(n)
    ensures Int64FromMap(m, k) == n
  {
    ParsePrint(n);
  }
}
