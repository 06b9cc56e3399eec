/** The theory-listing and minting parts of the contract hook (`useContract`):
    the per-token loop of `fetchTheories`, the mapping from IPFS metadata to a
    displayed theory, and the `loading`/`error` bookkeeping of `mintNFT`. */
module Contract {
  import opened Wrappers
  import opened Js
  import opened Strings
  import opened Ipfs

  datatype Theory = Theory(
    id: nat,
    title: string,
    content: string,
    image: Option<string>,
    owner: string,
    createdAt: string)

  const IpfsScheme := "ipfs://"
  const IpfsGateway := "https://ipfs.io/ipfs/"
  const DefaultErrorMessage := "An error occurred"

  /** The URL the metadata is fetched from: the first "ipfs://" anywhere in the
      token URI is replaced by the public gateway. */
  function GatewayUrl(tokenUri: string): (url: string)
    ensures !Contains(tokenUri, IpfsScheme) ==> url == tokenUri
    ensures forall i: nat :: IndexOf(tokenUri, IpfsScheme) == Some(i) ==>
      url == tokenUri[..i] + IpfsGateway + tokenUri[i + |IpfsScheme|..]
  {
    ReplaceFirst(tokenUri, IpfsScheme, IpfsGateway)
  }

  lemma GatewayOfIpfsUri(hash: string)
    ensures GatewayUrl(IpfsScheme + hash) == IpfsGateway + hash
  {
  }

  /** `attributes.find(attr => attr.trait_type === wanted)`, as an index. */
  function FindAttribute(attributes: seq<Attribute>, wanted: string): (r: Option<nat>)
    ensures r.Some? ==> r.value < |attributes| && attributes[r.value].traitType == wanted
    ensures r.Some? ==> forall j :: 0 <= j < r.value ==> attributes[j].traitType != wanted
    ensures r.None? ==> forall j :: 0 <= j < |attributes| ==> attributes[j].traitType != wanted
  {
    if attributes == [] then None
    else if attributes[0].traitType == wanted then Some(0)
    else
      match FindAttribute(attributes[1..], wanted)
      case None => None
      case Some(k) => Some(k + 1)
  }

  /** The theory shown for token `id`. `createdAt` is the value of the first
      "Creation Date" attribute unless that is missing or empty (the `||`
      fallback), in which case it is the current time `now`. */
  function ReadTheory(id: nat, owner: string, m: TheoryMetadata, now: string): (t: Theory)
    ensures t.id == id && t.owner == owner
    ensures t.title == m.name && t.content == m.content && t.image == m.image
    // The first "Creation Date" attribute decides: its value when non-empty, `now` otherwise.
    ensures forall k :: 0 <= k < |m.attributes| && m.attributes[k].traitType == CreationDateTrait
                        && (forall j :: 0 <= j < k ==> m.attributes[j].traitType != CreationDateTrait) ==>
      t.createdAt == (if m.attributes[k].value != "" then m.attributes[k].value else now)
    ensures (forall k :: 0 <= k < |m.attributes| ==> m.attributes[k].traitType != CreationDateTrait) ==>
      t.createdAt == now
  {
    var createdAt :=
      match FindAttribute(m.attributes, CreationDateTrait)
      case Some(k) => if m.attributes[k].value != "" then m.attributes[k].value else now
      case None => now;
    Theory(id, m.name, m.content, m.image, owner, createdAt)
  }

  /** The answers the chain and the gateway give for each token: `tokenURI(i)`,
      `ownerOf(i)`, and the parsed JSON served at a URL. */
  datatype Ledger = Ledger(
    tokenUri: nat -> Result<string, Thrown>,
    ownerOf: nat -> Result<string, Thrown>,
    metadataAt: string -> Result<TheoryMetadata, Thrown>)

  /** One iteration of the loop: None when any of the three calls throws. */
  function FetchOne(i: nat, ledger: Ledger, now: string): (r: Option<Theory>)
    ensures r.Some? ==> r.value.id == i
    ensures r.Some? <==> ledger.tokenUri(i).Success? && ledger.ownerOf(i).Success?
                         && ledger.metadataAt(GatewayUrl(ledger.tokenUri(i).value)).Success?
    // The theory is read from the owner and the metadata served at the gateway URL.
    ensures r.Some? ==>
      r.value == ReadTheory(i, ledger.ownerOf(i).value,
                            ledger.metadataAt(GatewayUrl(ledger.tokenUri(i).value)).value, now)
  {
    match ledger.tokenUri(i)
    case Failure(_) => None
    case Success(uri) =>
      match ledger.ownerOf(i)
      case Failure(_) => None
      case Success(owner) =>
        match ledger.metadataAt(GatewayUrl(uri))
        case Failure(_) => None
        case Success(m) => Some(ReadTheory(i, owner, m, now))
  }

  /** Token `i`'s fetch as a function of `i` alone. */
  function Fetcher(ledger: Ledger, now: string): nat -> Option<Theory> {
    (i: nat) => FetchOne(i, ledger, now)
  }

  /** Every fetched theory carries the id it was fetched for. */
  ghost predicate KeepsIds(fetch: nat -> Option<Theory>) {
    forall i: nat :: fetch(i).Some? ==> fetch(i).value.id == i
  }

  lemma FetcherKeepsIds(ledger: Ledger, now: string)
    ensures KeepsIds(Fetcher(ledger, now))
  {
  }

  /** The ids of a list of theories. */
  function Ids(theories: seq<Theory>): (ids: set<nat>)
    ensures forall k :: 0 <= k < |theories| ==> theories[k].id in ids
  {
    if theories == [] then {}
    else Ids(theories[..|theories| - 1]) + {theories[|theories| - 1].id}
  }

  /** `theories` lists, in increasing id order, exactly the tokens below
      `count` whose fetch succeeded, each as that fetch produced it. */
  ghost predicate ListedBy(theories: seq<Theory>, count: nat, fetch: nat -> Option<Theory>) {
    && (forall k :: 0 <= k < |theories| ==>
          theories[k].id < count && fetch(theories[k].id) == Some(theories[k]))
    && (forall k, l :: 0 <= k < l < |theories| ==> theories[k].id < theories[l].id)
    && (forall i: nat :: i < count ==> (fetch(i).Some? <==> i in Ids(theories)))
  }

  ghost predicate Listed(theories: seq<Theory>, count: nat, ledger: Ledger, now: string) {
    ListedBy(theories, count, Fetcher(ledger, now))
  }

  /** Reference definition of the list the loop builds over tokens 0..n-1. */
  function CollectedBy(n: nat, fetch: nat -> Option<Theory>): seq<Theory> {
    if n == 0 then []
    else
      var before := CollectedBy(n - 1, fetch);
      match fetch(n - 1)
      case None => before
      case Some(t) => before + [t]
  }

  function Collected(n: nat, ledger: Ledger, now: string): seq<Theory> {
    CollectedBy(n, Fetcher(ledger, now))
  }

  /** A bound on every listed id bounds the id set. */
  lemma {:induction false} IdsBelow(theories: seq<Theory>, bound: nat)
    requires forall k :: 0 <= k < |theories| ==> theories[k].id < bound
    ensures forall i :: i in Ids(theories) ==> i < bound
  {
    if theories != [] {
      IdsBelow(theories[..|theories| - 1], bound);
    }
  }

  /** One more token that failed leaves the list as it is. */
  lemma ListedSkip(theories: seq<Theory>, i: nat, fetch: nat -> Option<Theory>)
    requires ListedBy(theories, i, fetch)
    requires fetch(i).None?
    ensures ListedBy(theories, i + 1, fetch)
  {
    IdsBelow(theories, i);
  }

  /** One more token that succeeded is appended at the end. */
  lemma ListedPush(theories: seq<Theory>, i: nat, fetch: nat -> Option<Theory>, t: Theory)
    requires ListedBy(theories, i, fetch)
    requires fetch(i) == Some(t) && t.id == i
    ensures ListedBy(theories + [t], i + 1, fetch)
  {
    var ts := theories + [t];
    assert ts[..|ts| - 1] == theories;
    assert Ids(ts) == Ids(theories) + {i};
  }

  lemma CollectedStep(i: nat, fetch: nat -> Option<Theory>)
    requires KeepsIds(fetch)
    requires ListedBy(CollectedBy(i, fetch), i, fetch)
    ensures ListedBy(CollectedBy(i + 1, fetch), i + 1, fetch)
  {
    var before := CollectedBy(i, fetch);
    match fetch(i)
    case None =>
      ListedSkip(before, i, fetch);
    case Some(t) =>
      ListedPush(before, i, fetch, t);
  }

  /** The collected list holds, in increasing id order, exactly the tokens
      below `n` whose fetch succeeded. */
  lemma {:induction false} CollectedListed(n: nat, fetch: nat -> Option<Theory>)
    requires KeepsIds(fetch)
    ensures ListedBy(CollectedBy(n, fetch), n, fetch)
  {
    if n > 0 {
      CollectedListed(n - 1, fetch);
      CollectedStep(n - 1, fetch);
    }
  }

  /** The `for` loop of `fetchTheories`: a failing token is skipped and the
      loop goes on. */
  method CollectTheories(count: nat, ledger: Ledger, now: string) returns (theories: seq<Theory>)
    ensures theories == Collected(count, ledger, now)
  {
    theories := [];
    var i := 0;
    while i < count
      invariant i <= count
      invariant theories == Collected(i, ledger, now)
    {
      var fetched := FetchOne(i, ledger, now);
      if fetched.Some? {
        theories := theories + [fetched.value];
      }
      i := i + 1;
    }
  }

  /** The hook's state. */
  datatype HookState = HookState(loading: bool, error: Option<string>, theories: seq<Theory>)

  const InitialState := HookState(false, None, [])

  /** `fetchTheories`. `listing` is the outcome of connecting to the contract
      and reading `tokenCounter()`; a failure there records its message and is
      rethrown, otherwise the collected list replaces `theories`. */
  method FetchTheories(s: HookState, listing: Result<nat, Thrown>, ledger: Ledger, now: string)
    returns (s': HookState, result: Result<(), Thrown>)
    ensures s'.loading == s.loading
    ensures result.Success? <==> listing.Success?
    ensures listing.Failure? ==> result == Failure(listing.error)
    ensures listing.Failure? ==>
      s' == s.(error := Some(MessageOr(listing.error, DefaultErrorMessage)))
    ensures listing.Success? ==> s'.error == s.error && Listed(s'.theories, listing.value, ledger, now)
  {
    match listing
    case Failure(e) =>
      s' := s.(error := Some(MessageOr(e, DefaultErrorMessage)));
      result := Failure(e);
    case Success(count) =>
      var theories := CollectTheories(count, ledger, now);
      FetcherKeepsIds(ledger, now);
      CollectedListed(count, Fetcher(ledger, now));
      s' := s.(theories := theories);
      result := Success(());
  }

  /** The checks `mintNFT` makes once the receipt is in: `counted` is the
      second `tokenCounter()` read, which ethers v6 returns as a `bigint`;
      the new token's id is that count minus `one`; `lookedUp` is the outcome
      of reading that token's `tokenURI` (logged only). */
  function Confirmation(counted: Result<nat, Thrown>, one: Numeric, lookedUp: Result<string, Thrown>)
    : (r: Result<(), Thrown>)
    ensures counted.Failure? ==> r == Failure(counted.error)
    ensures counted.Success? && one.Num? ==> r == Failure(ErrorInstance(MixedBigIntMessage, None))
    ensures counted.Success? && one.Big? ==> r.Success? == lookedUp.Success?
    ensures counted.Success? && one.Big? && lookedUp.Failure? ==> r == Failure(lookedUp.error)
  {
    match counted
    case Failure(e) => Failure(e)
    case Success(count) =>
      match Subtract(Big(count), one)
      case Failure(e) => Failure(e)
      case Success(_) =>
        match lookedUp
        case Failure(e) => Failure(e)
        case Success(_) => Success(())
  }

  /** `mintNFT`, with the literal subtracted from the token count as `one`.
      `minted` is the outcome of everything up to the receipt (contract
      connection, signer, balance read, the mint transaction and its `wait`):
      the transaction hash, or what was thrown. `during` is the state while
      the call is pending; `after` is the state once it settled. */
  method MintWith(one: Numeric, s: HookState, minted: Result<string, Thrown>, counted: Result<nat, Thrown>,
                  lookedUp: Result<string, Thrown>, listing: Result<nat, Thrown>, ledger: Ledger, now: string)
    returns (during: HookState, after: HookState, result: Result<string, Thrown>)
    // On entry: loading set, error cleared, nothing else touched.
    ensures during == s.(loading := true, error := None)
    // The `finally`: never left loading.
    ensures !after.loading
    ensures result.Success? <==>
      minted.Success? && Confirmation(counted, one, lookedUp).Success? && listing.Success?
    ensures result.Success? ==> result.value == minted.value
    ensures result.Success? ==> after.error.None? && Listed(after.theories, listing.value, ledger, now)
    ensures result.Failure? ==> after.error == Some(MessageOr(result.error, DefaultErrorMessage))
    ensures minted.Failure? ==> result == Failure(minted.error) && after.theories == s.theories
    // A failed refresh never reaches `setTheories`: the list is kept.
    ensures listing.Failure? ==> after.theories == s.theories
    ensures minted.Success? && Confirmation(counted, one, lookedUp).Success? && listing.Failure? ==>
      result == Failure(listing.error)
    // A failed check after the receipt skips the refresh.
    ensures minted.Success? && Confirmation(counted, one, lookedUp).Failure? ==>
      && result == Failure(Confirmation(counted, one, lookedUp).error)
      && after == s.(loading := false, error := Some(MessageOr(result.error, DefaultErrorMessage)))
  {
    during := s.(loading := true, error := None);
    var confirmed: Result<string, Thrown> :=
      match minted
      case Failure(e) => Failure(e)
      case Success(tx) =>
        match Confirmation(counted, one, lookedUp)
        case Failure(e) => Failure(e)
        case Success(_) => Success(tx);
    match confirmed
    case Failure(e) =>
      after := during.(error := Some(MessageOr(e, DefaultErrorMessage)), loading := false);
      result := Failure(e);
    case Success(tx) =>
      var refreshed, fetched := FetchTheories(during, listing, ledger, now);
      match fetched
      case Failure(e) =>
        after := refreshed.(error := Some(MessageOr(e, DefaultErrorMessage)), loading := false);
        result := Failure(e);
      case Success(_) =>
        after := refreshed.(loading := false);
        result := Success(tx);
  }

  /** `mintNFT` as written: `tokenCount - 1` subtracts a `number` from a
      `bigint`, so every mint whose receipt arrives ends in a `TypeError`. The
      list is never refreshed, the error shown is V8's message, and the call
      rejects even though the token was minted. */
  method MintNft(s: HookState, minted: Result<string, Thrown>, counted: Result<nat, Thrown>,
                 lookedUp: Result<string, Thrown>, listing: Result<nat, Thrown>, ledger: Ledger, now: string)
    returns (during: HookState, after: HookState, result: Result<string, Thrown>)
    ensures during == s.(loading := true, error := None)
    ensures !after.loading
    ensures result.Failure?
    ensures after.theories == s.theories
    ensures result.Failure? ==> after.error == Some(MessageOr(result.error, DefaultErrorMessage))
    ensures minted.Failure? ==> result == Failure(minted.error)
    ensures minted.Success? && counted.Failure? ==> result == Failure(counted.error)
    ensures minted.Success? && counted.Success? ==>
      && result == Failure(ErrorInstance(MixedBigIntMessage, None))
      && after == s.(loading := false, error := Some(MixedBigIntMessage))
  {
    during, after, result := MintWith(Num(1.0), s, minted, counted, lookedUp, listing, ledger, now);
  }

  /** `mintNFT` with the evidently intended `tokenCount - 1n`: a confirmed mint
      whose token URI reads back refreshes the list and resolves to the
      transaction. */
  method MintNftCorrected(s: HookState, minted: Result<string, Thrown>, counted: Result<nat, Thrown>,
                          lookedUp: Result<string, Thrown>, listing: Result<nat, Thrown>, ledger: Ledger, now: string)
    returns (during: HookState, after: HookState, result: Result<string, Thrown>)
    ensures during == s.(loading := true, error := None)
    ensures !after.loading
    ensures result.Success? <==>
      minted.Success? && counted.Success? && lookedUp.Success? && listing.Success?
    ensures result.Success? ==>
      && result.value == minted.value
      && after.error.None?
      && Listed(after.theories, listing.value, ledger, now)
    ensures result.Failure? ==> after.error == Some(MessageOr(result.error, DefaultErrorMessage))
    ensures minted.Failure? ==> result == Failure(minted.error) && after.theories == s.theories
    // A failed refresh never reaches `setTheories`: the list is kept.
    ensures listing.Failure? ==> after.theories == s.theories
    ensures minted.Success? && counted.Failure? ==> result == Failure(counted.error) && after.theories == s.theories
    ensures minted.Success? && counted.Success? && lookedUp.Failure? ==>
      result == Failure(lookedUp.error) && after.theories == s.theories
    ensures minted.Success? && counted.Success? && lookedUp.Success? && listing.Failure? ==>
      result == Failure(listing.error)
  {
    during, after, result := MintWith(Big(1), s, minted, counted, lookedUp, listing, ledger, now);
  }

  /** Reading back a record built by `createAndUploadTheory` recovers the
      title, the content, the image and the creation time. */
  lemma MetadataRoundTrip(title: string, content: string, imageUrl: Option<string>, now: string,
                          id: nat, owner: string, later: string)
    requires now != ""
    ensures ReadTheory(id, owner, BuildMetadata(title, content, imageUrl, now), later)
         == Theory(id, title, content, imageUrl, owner, now)
  {
    var m := BuildMetadata(title, content, imageUrl, now);
    assert m.attributes[0].traitType != CreationDateTrait;
    assert FindAttribute(m.attributes, CreationDateTrait) == Some(1);
  }

  /** End to end: a theory uploaded by `createAndUploadTheory` and minted as
      token `i` (its token URI is the returned URI, and the gateway serves what
      was pinned) is listed as exactly that theory. */
  lemma UploadThenFetch(title: string, content: string, imageFile: Option<ImageFile>, now: string,
                        jwt: Option<string>, pinned: Result<string, Thrown>,
                        i: nat, owner: string, ledger: Ledger, later: string)
    requires now != ""
    requires CreateAndUploadTheory(title, content, imageFile, now, jwt, pinned).result.Success?
    requires ledger.tokenUri(i) == CreateAndUploadTheory(title, content, imageFile, now, jwt, pinned).result
    requires ledger.ownerOf(i) == Success(owner)
    requires pinned.Success? ==>
      ledger.metadataAt(IpfsGateway + pinned.value)
        == Success(CreateAndUploadTheory(title, content, imageFile, now, jwt, pinned).metadata)
    ensures FetchOne(i, ledger, later)
         == Some(Theory(i, title, content,
                        CreateAndUploadTheory(title, content, imageFile, now, jwt, pinned).metadata.image,
                        owner, now))
  {
    var c := CreateAndUploadTheory(title, content, imageFile, now, jwt, pinned);
    GatewayOfIpfsUri(pinned.value);
    MetadataRoundTrip(title, content, c.metadata.image, now, i, owner, later);
  }
}
