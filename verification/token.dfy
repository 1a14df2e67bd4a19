/**
 * The `Token` balance and allowance ledger of real_blockchain.py.
 *
 * Python's `defaultdict` reads a missing balance or allowance as 0; here that is `Get` on a
 * finite map. A read never inserts an entry in this model, so a refused operation returns the
 * token exactly as it was.
 */
module TokenLedger {

  type Address = string

  datatype Token = Token(
    name: string,
    symbol: string,
    decimals: int,
    totalSupply: int,
    balances: map<Address, int>,
    /** owner -> spender -> approved amount */
    allowed: map<Address, map<Address, int>>)

  /** Result of the methods that report success with a boolean. */
  datatype Outcome = Outcome(ok: bool, token: Token)

  function NewToken(name: string, symbol: string, decimals: int, totalSupply: int): Token
  {
    Token(name, symbol, decimals, totalSupply, map[], map[])
  }

  function Get(m: map<Address, int>, a: Address): int
  {
    if a in m then m[a] else 0
  }

  function BalanceOf(t: Token, a: Address): int
  {
    Get(t.balances, a)
  }

  function Allowance(t: Token, owner: Address, spender: Address): int
  {
    if owner in t.allowed then Get(t.allowed[owner], spender) else 0
  }

  /** `m[a] += amount` on a defaultdict. */
  function Credit(m: map<Address, int>, a: Address, amount: int): map<Address, int>
  {
    m[a := Get(m, a) + amount]
  }

  /** `allowed[owner][spender] = amount` on the nested defaultdict. */
  function SetAllowance(allowed: map<Address, map<Address, int>>, owner: Address, spender: Address, amount: int)
    : map<Address, map<Address, int>>
  {
    var inner := if owner in allowed then allowed[owner] else map[];
    allowed[owner := inner[spender := amount]]
  }

  /** `after` is `before` with `amount` taken from `from` and given to `to` (possibly the same address). */
  ghost predicate Moved(before: map<Address, int>, after: map<Address, int>, from: Address, to: Address, amount: int)
  {
    forall a :: Get(after, a) == Get(before, a) - (if a == from then amount else 0) + (if a == to then amount else 0)
  }

  /** Every owner that appears in the allowance table has at least one spender entry. */
  ghost predicate AllowancesNonEmpty(t: Token)
  {
    forall o :: o in t.allowed ==> |t.allowed[o]| > 0
  }

  /** `initial_distribution`: the creator's balance is set (not increased) to the total supply. */
  function InitialDistribution(t: Token, creator: Address): (r: Token)
    ensures BalanceOf(r, creator) == t.totalSupply
    ensures forall a :: a != creator ==> BalanceOf(r, a) == BalanceOf(t, a)
    ensures r.(balances := t.balances) == t
  {
    t.(balances := t.balances[creator := t.totalSupply])
  }

  /**
   * `transfer`: refused, with nothing changed, exactly when the sender holds less than `amount`;
   * otherwise `amount` moves from sender to recipient and nothing but balances changes.
   */
  function Transfer(t: Token, sender: Address, recipient: Address, amount: int): (r: Outcome)
    ensures r.ok <==> BalanceOf(t, sender) >= amount
    ensures !r.ok ==> r.token == t
    ensures r.ok ==> Moved(t.balances, r.token.balances, sender, recipient, amount)
    ensures r.token.(balances := t.balances) == t
  {
    if Get(t.balances, sender) < amount then Outcome(false, t)
    else
      var debited := Credit(t.balances, sender, -amount);
      Outcome(true, t.(balances := Credit(debited, recipient, amount)))
  }

  /**
   * `approve`: always succeeds and overwrites the (owner, spender) allowance with `amount`;
   * every other allowance and all balances stay as they were.
   */
  function Approve(t: Token, owner: Address, spender: Address, amount: int): (r: Outcome)
    ensures r.ok
    ensures Allowance(r.token, owner, spender) == amount
    ensures forall o, s :: (o != owner || s != spender) ==> Allowance(r.token, o, s) == Allowance(t, o, s)
    ensures r.token.(allowed := t.allowed) == t
    ensures AllowancesNonEmpty(t) ==> AllowancesNonEmpty(r.token)
  {
    Outcome(true, t.(allowed := SetAllowance(t.allowed, owner, spender, amount)))
  }

  /** A second approval replaces the first rather than adding to it. */
  lemma ApproveOverwrites(t: Token, owner: Address, spender: Address, first: int, second: int)
    ensures Approve(Approve(t, owner, spender, first).token, owner, spender, second)
         == Approve(t, owner, spender, second)
  {
    var inner := if owner in t.allowed then t.allowed[owner] else map[];
    assert inner[spender := first][spender := second] == inner[spender := second];
    assert SetAllowance(SetAllowance(t.allowed, owner, spender, first), owner, spender, second)
        == SetAllowance(t.allowed, owner, spender, second);
  }

  /**
   * `transfer_from`: succeeds exactly when the owner's balance and the spender's allowance both
   * cover `amount`; then `amount` moves from owner to recipient and the allowance drops by
   * `amount`, with every other allowance untouched. A refusal changes nothing.
   */
  function TransferFrom(t: Token, spender: Address, owner: Address, recipient: Address, amount: int): (r: Outcome)
    ensures r.ok <==> BalanceOf(t, owner) >= amount && Allowance(t, owner, spender) >= amount
    ensures !r.ok ==> r.token == t
    ensures r.ok ==> Moved(t.balances, r.token.balances, owner, recipient, amount)
    ensures r.ok ==> Allowance(r.token, owner, spender) == Allowance(t, owner, spender) - amount
    ensures forall o, s :: (o != owner || s != spender) ==> Allowance(r.token, o, s) == Allowance(t, o, s)
    ensures r.token.(balances := t.balances, allowed := t.allowed) == t
    ensures AllowancesNonEmpty(t) ==> AllowancesNonEmpty(r.token)
  {
    if Get(t.balances, owner) < amount || Allowance(t, owner, spender) < amount then Outcome(false, t)
    else
      var debited := Credit(t.balances, owner, -amount);
      var credited := Credit(debited, recipient, amount);
      var left := Allowance(t, owner, spender) - amount;
      Outcome(true, t.(balances := credited, allowed := SetAllowance(t.allowed, owner, spender, left)))
  }

  /** The supply side of `mint_tokens`: total supply and the recipient's balance both grow by `amount`. */
  function Mint(t: Token, recipient: Address, amount: int): (r: Token)
    ensures r.totalSupply == t.totalSupply + amount
    ensures BalanceOf(r, recipient) == BalanceOf(t, recipient) + amount
    ensures forall a :: a != recipient ==> BalanceOf(r, a) == BalanceOf(t, a)
    ensures r.(totalSupply := t.totalSupply, balances := t.balances) == t
  {
    t.(totalSupply := t.totalSupply + amount, balances := Credit(t.balances, recipient, amount))
  }

  // ---------------------------------------------------------------- conservation

  /** Sum of the balances of the addresses in `keys`. */
  ghost function SumOver(m: map<Address, int>, keys: set<Address>): int
    decreases keys
  {
    if keys == {} then 0
    else
      var a :| a in keys;
      Get(m, a) + SumOver(m, keys - {a})
  }

  /** Sum of all balances. */
  ghost function Total(m: map<Address, int>): int
  {
    SumOver(m, m.Keys)
  }

  /** The sum does not depend on which address is taken out first. */
  lemma {:induction false} SumOverRemove(m: map<Address, int>, keys: set<Address>, k: Address)
    requires k in keys
    ensures SumOver(m, keys) == Get(m, k) + SumOver(m, keys - {k})
    decreases keys
  {
    var a :| a in keys && SumOver(m, keys) == Get(m, a) + SumOver(m, keys - {a});
    if a != k {
      SumOverRemove(m, keys - {a}, k);
      SumOverRemove(m, keys - {k}, a);
      assert keys - {a} - {k} == keys - {k} - {a};
    }
  }

  /** The sum only looks at the balances of the addresses summed over. */
  lemma {:induction false} SumOverFrame(m: map<Address, int>, m': map<Address, int>, keys: set<Address>)
    requires forall a :: a in keys ==> Get(m, a) == Get(m', a)
    ensures SumOver(m, keys) == SumOver(m', keys)
    decreases keys
  {
    if keys != {} {
      var a :| a in keys;
      SumOverRemove(m, keys, a);
      SumOverRemove(m', keys, a);
      SumOverFrame(m, m', keys - {a});
    }
  }

  lemma TotalUpdate(m: map<Address, int>, k: Address, v: int)
    ensures Total(m[k := v]) == Total(m) - Get(m, k) + v
  {
    var m' := m[k := v];
    SumOverRemove(m', m'.Keys, k);
    assert m'.Keys - {k} == m.Keys - {k};
    SumOverFrame(m', m, m.Keys - {k});
    if k in m {
      SumOverRemove(m, m.Keys, k);
    } else {
      assert m.Keys - {k} == m.Keys;
    }
  }

  lemma TotalMove(m: map<Address, int>, from: Address, to: Address, amount: int)
    ensures Total(Credit(Credit(m, from, -amount), to, amount)) == Total(m)
  {
    var m1 := Credit(m, from, -amount);
    TotalUpdate(m, from, Get(m, from) - amount);
    TotalUpdate(m1, to, Get(m1, to) + amount);
  }

  /** Balances always add up to the recorded supply. */
  ghost predicate SupplyMatches(t: Token)
  {
    Total(t.balances) == t.totalSupply
  }

  /** A fresh token handed wholly to its creator has balances summing to its supply. */
  lemma {:induction false} DistributionMatchesSupply(name: string, symbol: string, decimals: int, supply: int, creator: Address)
    ensures SupplyMatches(InitialDistribution(NewToken(name, symbol, decimals, supply), creator))
  {
    var m: map<Address, int> := map[];
    TotalUpdate(m, creator, supply);
    assert m.Keys == {};
  }

  /** `transfer` preserves the sum of all balances. */
  lemma {:induction false} TransferConserves(t: Token, sender: Address, recipient: Address, amount: int)
    ensures Total(Transfer(t, sender, recipient, amount).token.balances) == Total(t.balances)
  {
    TotalMove(t.balances, sender, recipient, amount);
  }

  /** `transfer_from` preserves the sum of all balances. */
  lemma {:induction false} TransferFromConserves(t: Token, spender: Address, owner: Address, recipient: Address, amount: int)
    ensures Total(TransferFrom(t, spender, owner, recipient, amount).token.balances) == Total(t.balances)
  {
    TotalMove(t.balances, owner, recipient, amount);
  }

  /** Minting raises the balance sum and the supply by the same amount. */
  lemma {:induction false} MintKeepsSupplyMatched(t: Token, recipient: Address, amount: int)
    requires SupplyMatches(t)
    ensures SupplyMatches(Mint(t, recipient, amount))
  {
    TotalUpdate(t.balances, recipient, Get(t.balances, recipient) + amount);
  }

  // ---------------------------------------------------------------- to_dict / from_dict

  /** The dictionary `to_dict` produces and `from_dict` reads. */
  datatype TokenRecord = TokenRecord(
    name: string,
    symbol: string,
    decimals: int,
    totalSupply: int,
    balances: map<Address, int>,
    allowed: map<Address, map<Address, int>>)

  function ToDict(t: Token): TokenRecord
  {
    TokenRecord(t.name, t.symbol, t.decimals, t.totalSupply, t.balances, t.allowed)
  }

  /**
   * What `from_dict` rebuilds: every field copied, except that an owner whose spender table is
   * empty disappears, since the nested loop never writes an entry for it.
   */
  function Decoded(d: TokenRecord): Token
  {
    Token(d.name, d.symbol, d.decimals, d.totalSupply, d.balances,
          map o | o in d.allowed && |d.allowed[o]| > 0 :: d.allowed[o])
  }

  /** The entries of `inner` whose keys are in `keys`. */
  function Restrict(inner: map<Address, int>, keys: set<Address>): map<Address, int>
  {
    map s | s in inner && s in keys :: inner[s]
  }

  /** The allowance table once the spenders in `done` of one owner have been copied. */
  function Copied(allowed: map<Address, map<Address, int>>, owner: Address, inner: map<Address, int>,
                  done: set<Address>): map<Address, map<Address, int>>
  {
    if done == {} then allowed else allowed[owner := Restrict(inner, done)]
  }

  /** Copying one more spender of `inner` extends the copied part by that spender. */
  lemma CopyOneMore(allowed: map<Address, map<Address, int>>, owner: Address, inner: map<Address, int>,
                    done: set<Address>, spender: Address)
    requires owner !in allowed && done <= inner.Keys && spender in inner && spender !in done
    ensures SetAllowance(Copied(allowed, owner, inner, done), owner, spender, inner[spender])
         == Copied(allowed, owner, inner, done + {spender})
  {
    if done == {} {
      assert map[][spender := inner[spender]] == Restrict(inner, done + {spender});
    } else {
      assert Restrict(inner, done)[spender := inner[spender]] == Restrict(inner, done + {spender});
    }
  }

  /**
   * The inner loop of `from_dict`: `allowed[owner][spender] = amount` for every spender of one
   * owner. An owner with no spenders gets no entry.
   */
  method CopySpenders(allowed: map<Address, map<Address, int>>, owner: Address, inner: map<Address, int>)
    returns (r: map<Address, map<Address, int>>)
    requires owner !in allowed
    ensures |inner| > 0 ==> r == allowed[owner := inner]
    ensures |inner| == 0 ==> r == allowed
  {
    r := allowed;
    var spenders := inner.Keys;
    while spenders != {}
      invariant spenders <= inner.Keys
      invariant r == Copied(allowed, owner, inner, inner.Keys - spenders)
      decreases spenders
    {
      var spender :| spender in spenders;
      CopyOneMore(allowed, owner, inner, inner.Keys - spenders, spender);
      r := SetAllowance(r, owner, spender, inner[spender]);
      assert inner.Keys - (spenders - {spender}) == (inner.Keys - spenders) + {spender};
      spenders := spenders - {spender};
    }
    assert inner.Keys - spenders == inner.Keys;
    if |inner| > 0 {
      assert inner.Keys != {};
      assert Restrict(inner, inner.Keys) == inner;
    } else {
      assert inner.Keys == {};
    }
  }

  /** The owners of `table` outside `pending` that have at least one spender, with their tables. */
  function NonEmptyOutside(table: map<Address, map<Address, int>>, pending: set<Address>)
    : map<Address, map<Address, int>>
  {
    map o | o in table && o !in pending && |table[o]| > 0 :: table[o]
  }

  /** Finishing one more owner adds its table exactly when it is non-empty. */
  lemma FinishOwner(table: map<Address, map<Address, int>>, pending: set<Address>, owner: Address)
    requires owner in pending && owner in table
    ensures owner !in NonEmptyOutside(table, pending)
    ensures |table[owner]| > 0 ==>
      NonEmptyOutside(table, pending)[owner := table[owner]] == NonEmptyOutside(table, pending - {owner})
    ensures |table[owner]| == 0 ==> NonEmptyOutside(table, pending) == NonEmptyOutside(table, pending - {owner})
  {
  }

  /** `from_dict`: the outer loop over owners, each copied by the inner loop. */
  method FromDict(d: TokenRecord) returns (t: Token)
    ensures t == Decoded(d)
    ensures AllowancesNonEmpty(t)
  {
    var allowed: map<Address, map<Address, int>> := map[];
    var owners := d.allowed.Keys;
    while owners != {}
      invariant owners <= d.allowed.Keys
      invariant allowed == NonEmptyOutside(d.allowed, owners)
      decreases owners
    {
      var owner :| owner in owners;
      FinishOwner(d.allowed, owners, owner);
      allowed := CopySpenders(allowed, owner, d.allowed[owner]);
      owners := owners - {owner};
    }
    assert allowed == NonEmptyOutside(d.allowed, {});
    t := Token(d.name, d.symbol, d.decimals, d.totalSupply, d.balances, allowed);
  }

  /** Round trip: a token whose allowance table has no empty owner entry is rebuilt exactly. */
  lemma DecodedInvertsToDict(t: Token)
    requires AllowancesNonEmpty(t)
    ensures Decoded(ToDict(t)) == t
  {
    var d := ToDict(t);
    assert (map o | o in d.allowed && |d.allowed[o]| > 0 :: d.allowed[o]) == t.allowed;
  }
}
