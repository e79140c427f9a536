/**
 * The byte layout of SPL Token and Token-2022 accounts, as the gateway reads it without
 * deserializing (gateway/src/auth.rs).
 */
module TokenAccount {
  import opened Common

  const SPL_TOKEN_PROGRAM := "TokenkegQfeZyiNwAJbNbGKPFXCWuBvf9Ss623VQ5DA"
  const SPL_TOKEN_2022_PROGRAM := "TokenzQdBNbLqP5VEhdkAS6EPFLC1PHnBqCXEpPxuEb"

  const TOKEN_ACCOUNT_SIZE: nat := 165
  const ACCOUNT_TYPE_OFFSET: nat := TOKEN_ACCOUNT_SIZE
  const ACCOUNT_TYPE_ACCOUNT: byte := 2

  const MINT_OFFSET: nat := 0
  const MINT_END: nat := 32
  const OWNER_OFFSET: nat := 32
  const OWNER_END: nat := 64
  const AMOUNT_OFFSET: nat := 64
  const AMOUNT_END: nat := 72
  const DELEGATE_OPTION_OFFSET: nat := 72
  const DELEGATE_OFFSET: nat := 76
  const DELEGATE_END: nat := 108
  const STATE_OFFSET: nat := 108
  const STATE_UNINITIALIZED: byte := 0
  const DELEGATED_AMOUNT_OFFSET: nat := 121
  const DELEGATED_AMOUNT_END: nat := 129

  predicate IsTokenProgram(programOwner: string) {
    programOwner == SPL_TOKEN_PROGRAM || programOwner == SPL_TOKEN_2022_PROGRAM
  }

  /** Whether the bytes are a token account rather than a mint. */
  predicate IsTokenAccount(data: Bytes)
    ensures IsTokenAccount(data) ==> |data| >= TOKEN_ACCOUNT_SIZE
  {
    || |data| == TOKEN_ACCOUNT_SIZE
    || (ACCOUNT_TYPE_OFFSET < |data| && data[ACCOUNT_TYPE_OFFSET] == ACCOUNT_TYPE_ACCOUNT)
  }

  /** The address arithmetic the gateway borrows from the Solana crates. */
  datatype Keys = Keys(
    base58: Bytes -> string,
    isBase58: string -> bool,
    ata: (string, string, string) -> string)

  function MintOf(keys: Keys, data: Bytes): string
    requires IsTokenAccount(data)
  {
    keys.base58(data[MINT_OFFSET..MINT_END])
  }

  function OwnerOf(keys: Keys, data: Bytes): string
    requires IsTokenAccount(data)
  {
    keys.base58(data[OWNER_OFFSET..OWNER_END])
  }

  /** Whether `pubkey` is still the associated token account its own owner field derives to. */
  predicate DerivesAsOwnAta(keys: Keys, data: Bytes, programOwner: string, pubkey: string)
    requires IsTokenAccount(data)
  {
    keys.ata(OwnerOf(keys, data), MintOf(keys, data), programOwner) == pubkey
  }

  /** Distinct owners never derive to one associated address under one mint and program. */
  ghost predicate InjectiveAta(keys: Keys) {
    forall a, b, mint, program :: keys.ata(a, mint, program) == keys.ata(b, mint, program) ==> a == b
  }

  // ---------------------------------------------------------------------------
  // Fixed-width integers
  // ---------------------------------------------------------------------------

  function Pow256(k: nat): nat {
    if k == 0 then 1 else 256 * Pow256(k - 1)
  }

  function FromLittleEndian(b: Bytes): nat {
    if b == [] then 0 else b[0] + 256 * FromLittleEndian(b[1..])
  }

  function ToLittleEndian(n: nat, width: nat): (b: Bytes)
    ensures |b| == width
  {
    if width == 0 then [] else [n % 256] + ToLittleEndian(n / 256, width - 1)
  }

  function Reversed(b: Bytes): (r: Bytes)
    ensures |r| == |b|
    ensures forall i :: 0 <= i < |b| ==> r[i] == b[|b| - 1 - i]
  {
    if b == [] then [] else Reversed(b[1..]) + [b[0]]
  }

  lemma {:induction false} LittleEndianRoundTrip(n: nat, width: nat)
    requires n < Pow256(width)
    ensures FromLittleEndian(ToLittleEndian(n, width)) == n
  {
    if width > 0 {
      assert n / 256 < Pow256(width - 1);
      LittleEndianRoundTrip(n / 256, width - 1);
      assert ToLittleEndian(n, width)[1..] == ToLittleEndian(n / 256, width - 1);
    }
  }

  lemma {:induction false} FromLittleEndianBound(b: Bytes)
    ensures FromLittleEndian(b) < Pow256(|b|)
  {
    if b != [] {
      FromLittleEndianBound(b[1..]);
    }
  }

  lemma {:induction false} EightBytesAreU64()
    ensures Pow256(8) == U64_MAX + 1
  {
    assert Pow256(2) == 0x1_0000;
    assert Pow256(4) == 0x1_0000_0000;
    assert Pow256(6) == 0x1_0000_0000_0000;
  }

  lemma {:induction false} ReversedTwice(b: Bytes)
    ensures Reversed(Reversed(b)) == b
  {
  }

  /** The balance a token account's bytes hold, or none if they are not a token account. */
  function TokenAccountAmount(data: Bytes, programOwner: string): Option<nat> {
    if !IsTokenProgram(programOwner) || !IsTokenAccount(data) then None
    else Some(FromLittleEndian(data[AMOUNT_OFFSET..AMOUNT_END]))
  }

  // ---------------------------------------------------------------------------
  // The layout
  // ---------------------------------------------------------------------------

  /** A token account's base fields; `native` and `closeAuthority` are optional values left as they are stored. */
  datatype Fields = Fields(
    mint: Bytes, owner: Bytes, amount: u64, delegate: Option<Bytes>, state: byte, native: Bytes,
    delegatedAmount: u64, closeAuthority: Bytes)

  predicate ValidFields(f: Fields) {
    && |f.mint| == 32 && |f.owner| == 32 && (f.delegate.Some? ==> |f.delegate.value| == 32)
    && |f.native| == 12 && |f.closeAuthority| == 36
  }

  /** How both token programs store an optional key: a four-byte tag, then the key or 32 bytes of filling. */
  function StoredKey(key: Option<Bytes>): (b: Bytes)
    requires key.Some? ==> |key.value| == 32
    ensures |b| == 36
  {
    if key.Some? then [1, 0, 0, 0] + key.value else [0, 0, 0, 0] + seq(32, _ => 0)
  }

  function Head(f: Fields): (b: Bytes)
    requires ValidFields(f)
    ensures |b| == 72
  {
    f.mint + f.owner + ToLittleEndian(f.amount, 8)
  }

  function Tail(f: Fields): (b: Bytes)
    requires ValidFields(f)
    ensures |b| == 57
  {
    [f.state] + f.native + ToLittleEndian(f.delegatedAmount, 8) + f.closeAuthority
  }

  /** The account's bytes: the base fields in their order, then the Token-2022 extensions if it has any. */
  function Layout(f: Fields, extensions: Bytes): (b: Bytes)
    requires ValidFields(f)
    ensures |b| == TOKEN_ACCOUNT_SIZE + |extensions|
  {
    Head(f) + StoredKey(f.delegate) + Tail(f) + extensions
  }

  lemma {:induction false} LayoutSlices(f: Fields, extensions: Bytes)
    requires ValidFields(f)
    ensures var data := Layout(f, extensions);
            && data[..72] == Head(f) && data[72..108] == StoredKey(f.delegate) && data[108..165] == Tail(f)
            && data[165..] == extensions
  {
  }

  /** What the gateway reads at its offsets is what the programs laid out there. */
  lemma {:induction false} LayoutIsRead(keys: Keys, f: Fields, extensions: Bytes, programOwner: string)
    requires ValidFields(f)
    ensures IsTokenAccount(Layout(f, extensions)) <==> extensions == [] || extensions[0] == 2
    ensures IsTokenAccount(Layout(f, extensions)) ==>
              && MintOf(keys, Layout(f, extensions)) == keys.base58(f.mint)
              && OwnerOf(keys, Layout(f, extensions)) == keys.base58(f.owner)
    ensures IsTokenAccount(Layout(f, extensions)) && IsTokenProgram(programOwner) ==>
              TokenAccountAmount(Layout(f, extensions), programOwner) == Some(f.amount)
  {
    LayoutSlices(f, extensions);
    var data := Layout(f, extensions);
    assert data[165..] == extensions;
    assert Head(f)[0..32] == f.mint && Head(f)[32..64] == f.owner && Head(f)[64..72] == ToLittleEndian(f.amount, 8);
    assert data[0..32] == data[..72][0..32] && data[32..64] == data[..72][32..64] && data[64..72] == data[..72][64..72];
    EightBytesAreU64();
    LittleEndianRoundTrip(f.amount, 8);
  }

  lemma {:induction false} AmountIsU64(data: Bytes, programOwner: string)
    requires TokenAccountAmount(data, programOwner).Some?
    ensures TokenAccountAmount(data, programOwner).value <= U64_MAX
  {
    FromLittleEndianBound(data[AMOUNT_OFFSET..AMOUNT_END]);
    EightBytesAreU64();
  }
}
