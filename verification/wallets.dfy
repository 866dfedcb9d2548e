/**
 * `Wallet.save`: on a wallet's first save, a name that one of the same
 * user's wallets already holds is replaced by the first free name among
 * "name 2", "name 3", …
 *
 * The database is the list of stored wallets; `Wallet.objects.filter(user=…, name=…)`
 * is a search of that list.
 */
module Wallets {
  import opened Wrappers
  import opened Numbers

  /** The default of the `name` field. */
  const DefaultName: string := "My Wallet"

  /** A wallet row: its primary key (a UUID, as a number), its owner and its name. */
  datatype Wallet = Wallet(id: Option<nat>, user: nat, name: string)

  /**
   * `Wallet(user=…, name=…)`: Django fills every field from its default
   * when the object is built, the primary key from `uuid4` included; `key`
   * is the UUID drawn.
   */
  function NewWallet(user: nat, name: string, key: nat): (w: Wallet)
    ensures w.id.Some? && w.user == user && w.name == name
  {
    Wallet(Some(key), user, name)
  }

  /** The names held by `user`'s stored wallets. */
  function NamesOf(user: nat, stored: seq<Wallet>): set<string> {
    set w | w in stored && w.user == user :: w.name
  }

  /** The name tried with counter `k`: `f"{base_name} {counter}"`. */
  function Candidate(base: string, k: nat): string {
    base + " " + NatToString(k)
  }

  /** Different counters give different names. */
  lemma CandidateDistinct(base: string, j: nat, k: nat)
    requires j != k
    ensures Candidate(base, j) != Candidate(base, k)
  {
    assert Candidate(base, j)[|base| + 1..] == NatToString(j);
    assert Candidate(base, k)[|base| + 1..] == NatToString(k);
    NatToStringRoundTrip(j);
    NatToStringRoundTrip(k);
  }

  /** The names tried before counter `k`. */
  function Tried(base: string, k: nat): set<string> {
    set j | 2 <= j < k :: Candidate(base, j)
  }

  lemma TriedGrows(base: string, k: nat)
    requires k >= 2
    ensures Tried(base, k + 1) == Tried(base, k) + {Candidate(base, k)}
    ensures Candidate(base, k) !in Tried(base, k)
  {
    forall j | 2 <= j < k
      ensures Candidate(base, j) != Candidate(base, k)
    {
      CandidateDistinct(base, j, k);
    }
  }

  /**
   * The loop from counter `k`, every earlier candidate being taken: the
   * first counter whose name is free. Each round leaves one taken name
   * fewer untried, so the loop ends.
   */
  function FreeCounter(base: string, taken: set<string>, k: nat): (r: nat)
    requires k >= 2 && forall j :: 2 <= j < k ==> Candidate(base, j) in taken
    ensures k <= r && Candidate(base, r) !in taken
    ensures forall j :: 2 <= j < r ==> Candidate(base, j) in taken
    decreases taken - Tried(base, k)
  {
    if Candidate(base, k) !in taken then k
    else
      TriedGrows(base, k);
      FreeCounter(base, taken, k + 1)
  }

  /**
   * The name a first save stores: the name itself when free, otherwise
   * the candidate with the least counter from 2 on that is free.
   */
  function Dedup(base: string, taken: set<string>): (name: string)
    ensures name !in taken
    ensures base !in taken ==> name == base
    ensures base in taken ==> exists k :: 2 <= k && name == Candidate(base, k) &&
                                          forall j :: 2 <= j < k ==> Candidate(base, j) in taken
  {
    if base !in taken then base else Candidate(base, FreeCounter(base, taken, 2))
  }

  /**
   * `Wallet.save` as written: only a wallet without a primary key is renamed,
   * to a name its user does not hold, kept as is when free; a wallet with a
   * key keeps its name, whatever the user's other wallets are called.
   */
  function SaveName(w: Wallet, stored: seq<Wallet>): (name: string)
    ensures w.id.Some? ==> name == w.name
    ensures w.id.None? ==> name !in NamesOf(w.user, stored)
    ensures w.id.None? && w.name !in NamesOf(w.user, stored) ==> name == w.name
  {
    if w.id.None? then Dedup(w.name, NamesOf(w.user, stored)) else w.name
  }

  /**
   * A wallet built the usual way already has its primary key, so its first
   * save keeps a name the same user already uses.
   */
  lemma NewWalletKeepsTakenName(user: nat, name: string, key: nat, stored: seq<Wallet>)
    requires name in NamesOf(user, stored)
    ensures var saved := SaveName(NewWallet(user, name, key), stored);
      saved == name && saved in NamesOf(user, stored)
  {
  }

  /** A user's wallet named "My Wallet" exists; a second one created with the default name keeps it. */
  lemma SecondDefaultWalletDuplicates()
    ensures var stored := [Wallet(Some(1), 7, DefaultName)];
      SaveName(NewWallet(7, DefaultName, 2), stored) == DefaultName
  {
  }

  /**
   * `Wallet.save` as intended: `adding` is Django's `_state.adding`, true
   * until the wallet's row is first written; only then is the name
   * de-duplicated.
   */
  function SaveNameFixed(w: Wallet, adding: bool, stored: seq<Wallet>): (name: string)
    ensures !adding ==> name == w.name
    ensures adding ==> name !in NamesOf(w.user, stored)
    ensures adding && w.name !in NamesOf(w.user, stored) ==> name == w.name
  {
    if adding then Dedup(w.name, NamesOf(w.user, stored)) else w.name
  }

  /** The wallets of `user`. */
  function OwnedBy(user: nat, stored: seq<Wallet>): (r: seq<Wallet>)
    ensures forall w :: w in r <==> w in stored && w.user == user
  {
    if |stored| == 0 then []
    else (if stored[0].user == user then [stored[0]] else []) + OwnedBy(user, stored[1..])
  }

  /** Other users' wallets play no part: the name depends only on the user's own wallets. */
  lemma OtherUsersIgnored(w: Wallet, adding: bool, stored: seq<Wallet>)
    ensures SaveNameFixed(w, adding, stored) == SaveNameFixed(w, adding, OwnedBy(w.user, stored))
  {
    assert NamesOf(w.user, stored) == NamesOf(w.user, OwnedBy(w.user, stored));
  }

  /** The second default wallet of the example becomes "My Wallet 2". */
  lemma SecondDefaultWalletRenamed()
    ensures var stored := [Wallet(Some(1), 7, DefaultName)];
      SaveNameFixed(NewWallet(7, DefaultName, 2), true, stored) == DefaultName + " 2"
  {
    var stored := [Wallet(Some(1), 7, DefaultName)];
    var taken := NamesOf(7, stored);
    assert taken == {DefaultName};
    assert NatToString(2) == "2";
    assert Candidate(DefaultName, 2) !in taken;
  }
}
