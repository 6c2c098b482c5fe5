/** The records of types.ts. Money is held in integer minor units (fen),
    where the source uses JavaScript numbers. */
module PosTypes {
  import opened Wrappers
  import Seqs

  /** A sellable catalog entry; `color` is an optional display hint. */
  datatype Product = Product(
    id: string,
    name: string,
    price: int,
    cost: int,
    category: string,
    color: Option<string>)

  /** A value copy of a product at the moment it was added, plus how many
      units of it are being sold. Later catalog edits never reach it. */
  datatype CartItem = CartItem(product: Product, quantity: int)

  /** The closed set of ways a sale can be paid. */
  datatype PaymentMethod = Cash | Card | Qr

  /** A completed sale, stored newest first in the transaction log. */
  datatype Transaction = Transaction(
    id: string,
    timestamp: int,
    items: seq<CartItem>,
    total: int,
    totalProfit: int,
    paymentMethod: PaymentMethod)

  /** The string a payment method is stored as. */
  function MethodCode(m: PaymentMethod): (r: string)
    ensures r in ["CASH", "CARD", "QR"]
  {
    match m
    case Cash => "CASH"
    case Card => "CARD"
    case Qr => "QR"
  }

  /** Distinct methods are stored as distinct strings, so the stored code
      identifies the method. */
  lemma MethodCodeInjective(m1: PaymentMethod, m2: PaymentMethod)
    ensures MethodCode(m1) == MethodCode(m2) <==> m1 == m2
  {
  }

  function ProductId(p: Product): string
  {
    p.id
  }

  function TransactionId(t: Transaction): string
  {
    t.id
  }

  /** The ids of a sequence of products, in order. */
  function ProductIds(ps: seq<Product>): seq<string>
  {
    Seqs.Map(ps, ProductId)
  }

  /** The ids of a sequence of transactions, in order. */
  function TransactionIds(ts: seq<Transaction>): seq<string>
  {
    Seqs.Map(ts, TransactionId)
  }

  /** Value of one line at its sale price. */
  function LineTotal(item: CartItem): int
  {
    item.product.price * item.quantity
  }

  /** Profit of one line: (price - cost) per unit. */
  function LineProfit(item: CartItem): int
  {
    (item.product.price - item.product.cost) * item.quantity
  }

  /** Cost of one line. */
  function LineCost(item: CartItem): int
  {
    item.product.cost * item.quantity
  }

  /** Units on one line. */
  function LineUnits(item: CartItem): int
  {
    item.quantity
  }
}
