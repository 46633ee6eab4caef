/** Types and small arithmetic shared by every component. */
module Types {

  /** Addresses are opaque but totally ordered, so numbers stand for them. */
  type Address = nat

  newtype Byte = x: int | 0 <= x < 256

  const U32_MAX: nat := 0xffff_ffff
  const U64_MAX: nat := 0xffff_ffff_ffff_ffff
  const I128_MAX: int := 0x7fff_ffff_ffff_ffff_ffff_ffff_ffff_ffff

  type U32 = x: nat | x <= U32_MAX
  type I128 = x: int | -I128_MAX - 1 <= x <= I128_MAX

  datatype Option<+T> = None | Some(value: T)

  /** A contract call either commits a value or fails and leaves no trace. */
  datatype Outcome<+T, +E> = Ok(value: T) | Err(error: E)

  function Min(a: int, b: int): int {
    if a <= b then a else b
  }

  // ---- powers of two and shifts ----

  function Pow2(k: nat): (p: nat)
    ensures p > 0
  {
    if k == 0 then 1 else 2 * Pow2(k - 1)
  }

  /** `n >> k` on an unsigned integer. */
  function ShiftRight(n: nat, k: nat): nat
    decreases k
  {
    if k == 0 then n else ShiftRight(n / 2, k - 1)
  }

  lemma {:induction false} ShiftOfPow2(e: nat, k: nat)
    requires k <= e
    ensures ShiftRight(Pow2(e), k) == Pow2(e - k)
  {
    if k > 0 {
      ShiftOfPow2(e - 1, k - 1);
    }
  }

  lemma {:induction false} ShiftAgain(n: nat, k: nat)
    ensures ShiftRight(n, k + 1) == ShiftRight(n, k) / 2
    decreases k
  {
    if k > 0 {
      ShiftAgain(n / 2, k - 1);
    }
  }

  // ---- game identifiers, `[A-Za-z0-9_-]{1,64}` ----

  const MAX_GAME_ID_LEN: nat := 64

  predicate IdByte(b: Byte) {
    48 <= b <= 57 || 65 <= b <= 90 || 97 <= b <= 122 || b == 95 || b == 45
  }

  predicate ValidGameId(g: seq<Byte>) {
    0 < |g| <= MAX_GAME_ID_LEN && forall i :: 0 <= i < |g| ==> IdByte(g[i])
  }

  /** The bytes of a game identifier are the letters, the digits, the underscore and the hyphen. */
  lemma IdBytesAreTheAlphabet(b: Byte)
    ensures var c := b as int as char;
      IdByte(b) <==> 'A' <= c <= 'Z' || 'a' <= c <= 'z' || '0' <= c <= '9' || c == '_' || c == '-'
  {
  }

  /** One to sixty-four of them. */
  lemma ValidGameIdIff(g: seq<Byte>)
    ensures ValidGameId(g) <==> 1 <= |g| <= 64 && forall b :: b in g ==> IdByte(b)
  {
  }

  /** The byte loop of `is_valid_game_id`. */
  method AllIdBytes(g: seq<Byte>) returns (ok: bool)
    ensures ok <==> forall i :: 0 <= i < |g| ==> IdByte(g[i])
  {
    var i := 0;
    while i < |g|
      invariant 0 <= i <= |g|
      invariant forall j :: 0 <= j < i ==> IdByte(g[j])
    {
      if !IdByte(g[i]) {
        return false;
      }
      i := i + 1;
    }
    return true;
  }
}

/** The SEP-41 token as the contracts see it: balances per token and holder. */
module Token {
  import opened Types

  type Book = map<(Address, Address), nat>

  function Bal(b: Book, token: Address, who: Address): nat {
    if (token, who) in b then b[(token, who)] else 0
  }

  /** `transfer`; `None` is the trap on a negative amount or a short balance. */
  function Transfer(b: Book, token: Address, from: Address, to: Address, amount: int): Option<Book> {
    if amount < 0 || Bal(b, token, from) < amount then None
    else
      var debited := b[(token, from) := Bal(b, token, from) - amount];
      Some(debited[(token, to) := Bal(debited, token, to) + amount])
  }

  /** Every balance moves by what it sent and received, and by nothing else. */
  lemma TransferMoves(b: Book, token: Address, from: Address, to: Address, amount: int, tok: Address, who: Address)
    requires Transfer(b, token, from, to, amount).Some?
    ensures Bal(Transfer(b, token, from, to, amount).value, tok, who)
         == Bal(b, tok, who)
          - (if tok == token && who == from then amount else 0)
          + (if tok == token && who == to then amount else 0)
  {
  }
}
