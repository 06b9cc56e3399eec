# Spine wallet and theory core, modelled in Dafny

Spine ("Conspire") is a demo Web3 front end. A user connects a browser wallet
and writes a "theory". The theory's metadata is uploaded to IPFS through a
pinning service, and the theory is minted as an NFT on a local Hardhat chain.
A small Python backend issues nonces, checks signed challenges and hands out
JWTs.

Almost all of this is calls into SDKs. What the model keeps is the decision
logic around those calls:

- the Hardhat network check of the contract hook;
- the theory list assembly and the mint bookkeeping;
- the metadata writer and its read-back;
- the Reown provider's normalisation of an untyped account value;
- the `useWallet` and `useMetaMask` hook transitions;
- the navigation bar's shortened-address label;
- the backend's nonce, challenge, signature, token and route logic.

Each external call becomes an outcome parameter (`Result<_, Thrown>`) or a
function-typed parameter. Each operation is a pure function, or a method
where the source has a loop. Where it helps, an operation returns the requests
it sent as data.

Modules, one per source concern:

- `Wrappers`: `Option` and `Result`.
- `Js`: JavaScript values, truthiness, `typeof`, property reads, array reads, `slice`, thrown values.
- `Strings`: first-occurrence search, JavaScript `replace`, Python `str.replace`, ASCII case folding.
- `Provider`: the wallet requests and the chain descriptor.
- `Network`: `ensureHardhatNetwork`.
- `Contract`: `fetchTheories`, `mintNFT` and the metadata read-back.
- `Ipfs`: the mock image upload, `uploadToIPFS` and `createAndUploadTheory`.
- `Reown`, `Navbar`, `UseWallet`, `UseMetaMask`: the matching front-end files.
- `AuthWallet`, `AuthRoutes`: `backend/auth/wallet.py` and `backend/auth/routes.py`.

Notes on the code as written:

- The chain-id lookup in `SUPPORTED_NETWORKS` is a plain property read. It is
  case-sensitive, so `"0x7a69"` is not supported. It also finds the names an
  object inherits from `Object.prototype` (`"constructor"`, `"toString"`, …).
  Those read as truthy, so such a chain id passes the support check.
  `Network.Supported` models both facts.
- The error thrown for an unsupported chain is inside the same `try` as the
  switch. The outer `catch` therefore replaces it with the generic
  "Failed to switch…" message. The more specific message never reaches the
  caller.
- After a successful `wallet_addEthereumChain`, the switch is not retried.
- `ensureHardhatNetwork` is defined but neither called nor returned by the
  hook. It is modelled as written.
- `connectWallet` stores `accounts[0]` without checking that the list is
  non-empty. With an empty list the stored address is `undefined`, not
  `null`. This is why `UseWallet.WalletState` holds a JS value.
- `mintNFT` computes `tokenCount - 1` on the count that ethers v6 returns as
  a `bigint`. Mixing `bigint` and `number` throws a `TypeError`, so every
  confirmed mint ends in that error: the list is not refreshed and the call
  rejects although the token exists. See "## Findings". The comparison
  `i < tokenCount` in `fetchTheories` mixes the two types legally.
- The theory's `createdAt` uses `||`. An empty "Creation Date" value therefore
  falls back to the current time, just like a missing attribute.
- The token extraction of `get_current_wallet` deletes every occurrence of
  `"Bearer "` anywhere in the header text it is given, not only a leading
  one. No route in `routes.py` uses this dependency.
- The front end never fetches a nonce and never signs anything. The backend
  routes are modelled on their own, with no session state machine linking
  the two sides.

## Model

| member | source | states |
|---|---|---|
| Network.EnsureHardhatNetwork | frontend/src/lib/blockchain/useContract.ts:47-84 | no provider: install error, no request; with a provider the chain id is asked first; every later failure is the one generic message; the switch to 0x7A69 is sent exactly when the wallet is on a supported chain other than Hardhat, at most once, then at most one add of the Hardhat descriptor |
| Network.Supported | frontend/src/lib/blockchain/useContract.ts:57 | a chain id is supported exactly when reading it off the table as a JavaScript property gives a truthy value (own keys and inherited `Object.prototype` names alike) |
| Network.UnsupportedChainFails | frontend/src/lib/blockchain/useContract.ts:57-58 | a chain id that is not a supported key issues no switch/add and ends in the generic error, because the inner throw is caught by the outer catch |
| Network.LowerCaseHardhatIdUnsupported | frontend/src/lib/blockchain/useContract.ts:25-31 | the lookup is case-sensitive: "0x7a69" is not supported |
| Network.OnHardhatSucceeds | frontend/src/lib/blockchain/useContract.ts:62 | already on 0x7A69: no switch or add, success |
| Network.SuccessIff | frontend/src/lib/blockchain/useContract.ts:52-83 | success exactly when on Hardhat, or on a supported chain where the switch succeeds or fails with 4902 and the add succeeds |
| Network.AddChainIff | frontend/src/lib/blockchain/useContract.ts:63-78 | add-chain is sent exactly when the switch was rejected with 4902; the switch is sent at most once |
| Contract.GatewayUrl | frontend/src/lib/blockchain/useContract.ts:189 | a URI without "ipfs://" is fetched as is; otherwise only the first "ipfs://" becomes the gateway prefix |
| Contract.GatewayOfIpfsUri | frontend/src/lib/blockchain/useContract.ts:189 | a token URI "ipfs://h" is fetched from "https://ipfs.io/ipfs/h" |
| Contract.FindAttribute | frontend/src/lib/blockchain/useContract.ts:202 | `find` gives the first attribute with the wanted trait type, or none when no attribute has it |
| Contract.ReadTheory | frontend/src/lib/blockchain/useContract.ts:196-203 | title, content and image come from the metadata, id and owner from the token; createdAt is the value of the first Creation Date attribute when that is non-empty, and the current time when it is empty or no such attribute exists |
| Contract.FetchOne | frontend/src/lib/blockchain/useContract.ts:180-206 | a token yields a theory exactly when tokenURI, ownerOf and the metadata fetch at the gateway URL all succeed, and that theory is read from the owner and the fetched metadata under the token's own id |
| Contract.ListedSkip | frontend/src/lib/blockchain/useContract.ts:204-206 | a failed token leaves the list unchanged and the loop goes on |
| Contract.ListedPush | frontend/src/lib/blockchain/useContract.ts:196 | pushing a succeeded token keeps the list ordered and complete |
| Contract.CollectedStep | frontend/src/lib/blockchain/useContract.ts:179-207 | one more loop iteration, skipping or pushing, keeps the listing property |
| Contract.CollectedListed | frontend/src/lib/blockchain/useContract.ts:177-207 | the collected list holds, in increasing id order with id == i, exactly the tokens 0..n-1 whose fetch succeeded, each as fetched |
| Contract.CollectTheories | frontend/src/lib/blockchain/useContract.ts:177-207 | the loop builds exactly the reference list `Collected` (tokens taken in order, failures skipped without aborting) |
| Contract.FetchTheories | frontend/src/lib/blockchain/useContract.ts:170-217 | a failed contract/count read sets error to its message (or 'An error occurred') and rethrows; otherwise theories is replaced by the collected list and error is untouched |
| Contract.MintNft | frontend/src/lib/blockchain/useContract.ts:124-168 | as written: loading set and error cleared on entry, false at the end; the call never succeeds and never refreshes the list; a confirmed mint fails with the mixed-BigInt TypeError message, earlier failures with their own |
| Contract.Confirmation | frontend/src/lib/blockchain/useContract.ts:148-154 | the checks after the receipt fail with the count read's error, with the TypeError when the decrement is a `number`, or with the tokenURI read's error; they pass otherwise |
| Contract.MintWith | frontend/src/lib/blockchain/useContract.ts:124-168 | for either decrement literal: entry and finally bookkeeping; success exactly when the mint, the checks and the refresh all succeed, leaving error null and the listed theories; any failure records its message, and a failure of the mint, of the checks or of the refresh leaves the list untouched |
| Contract.MintNftCorrected | frontend/src/lib/blockchain/useContract.ts:124-168 | with `tokenCount - 1n`: success exactly when the mint, the count read, the tokenURI read and the refresh succeed, resolving to the transaction with the refreshed list; each failure is passed on with the list kept |
| Js.Subtract | frontend/src/lib/blockchain/useContract.ts:152 | JavaScript `-` throws the TypeError exactly when one operand is a `bigint` and the other a `number`; within one type it is subtraction |
| Js.Truthy | frontend/src/providers/ReownProvider.tsx:67 | `!!v` is false for exactly undefined, null, false, 0, NaN and the empty string |
| Js.Slice | frontend/src/components/Navbar.tsx:45 | `slice` never lengthens; a non-negative start counts from the front and a negative one from the back, both clamped to the string; an in-range pair gives that substring, an inverted one the empty string |
| Js.Index | frontend/src/features/wallet/useWallet.ts:20 | `accounts[i]` is the i-th string inside the array and undefined past its end |
| Js.TypeOf | frontend/src/providers/ReownProvider.tsx:70-72 | `typeof` is "object" exactly for null and objects, "function" exactly for functions, "string" exactly for strings, "undefined" exactly for undefined, "number" exactly for numbers and NaN |
| Js.MessageOr | frontend/src/lib/blockchain/useContract.ts:161 | an `Error` gives its message, any other thrown value the fallback |
| Contract.MetadataRoundTrip | frontend/src/lib/ipfs/ipfsUtils.ts:75-89 | reading back (useContract.ts:196-202) a record built by createAndUploadTheory gives back title, content, image and the Creation Date value |
| Contract.UploadThenFetch | frontend/src/lib/blockchain/useContract.ts:179-203 | a theory uploaded and minted as token i, served by the gateway as pinned, is listed as that theory |
| Ipfs.UploadFileToIpfs | frontend/src/lib/ipfs/ipfsUtils.ts:21-24 | every file gives 'ipfs://QmMockHash123/image' |
| Ipfs.UploadToIpfs | frontend/src/lib/ipfs/ipfsUtils.ts:27-57 | no (or empty) JWT fails before any request; otherwise one POST with the bearer JWT and the metadata; success is 'ipfs://' + IpfsHash; errors pass through |
| Ipfs.BuildMetadata | frontend/src/lib/ipfs/ipfsUtils.ts:75-90 | name, content and image as given, description 'Theory: ' + title, and two attributes whose second, and only Creation Date one, carries the creation time |
| Ipfs.CreateAndUploadTheory | frontend/src/lib/ipfs/ipfsUtils.ts:61-98 | name = title, description = 'Theory: ' + title, content kept, image only with a file, attributes [Category=Theory, Creation Date=now]; the upload is `uploadToIPFS` of this record: no JWT means no request and failure, a pinned hash gives 'ipfs://' + hash; any failure becomes 'Failed to create theory' |
| Reown.Normalise | frontend/src/providers/ReownProvider.tsx:66-76 | isConnected is the account's truthiness; address is a non-empty string account, or an object's non-empty string address field, and null otherwise |
| Reown.AddressImpliesConnected | frontend/src/providers/ReownProvider.tsx:67-76 | a known address always comes with isConnected and is non-empty |
| Reown.ConnectedWithoutAddress | frontend/src/providers/ReownProvider.tsx:72-76 | isConnected with a null address is reachable with an object lacking a string address |
| Reown.FunctionAccountHasNoAddress | frontend/src/providers/ReownProvider.tsx:72 | a function account is connected without an address, because `typeof` gives "function", not "object" |
| Reown.CheckConnection | frontend/src/providers/ReownProvider.tsx:55-82 | no appKit: unchanged; getAccount throws: (false, null); otherwise the same normalisation as the subscription |
| Reown.OnAccountChange | frontend/src/providers/ReownProvider.tsx:98-114 | the callback's isConnected is the account's truthiness; the address is a non-empty string account, or an object's non-empty string address field, and null otherwise |
| Reown.Disconnect | frontend/src/providers/ReownProvider.tsx:43-52 | with appKit: SDK disconnect called and state (false, null); without: nothing changes |
| Reown.DisconnectIdempotent | frontend/src/providers/ReownProvider.tsx:47-48 | disconnecting twice is disconnecting once |
| Navbar.ShortAddress | frontend/src/components/Navbar.tsx:45 | with slice clamping: the first min(6, n) characters, '...', the characters from max(0, n-4) |
| Navbar.ShortAddressLong | frontend/src/components/Navbar.tsx:45 | length ≥ 10: 13 characters, first six, '...', last four |
| Navbar.ShortAddressTiny | frontend/src/components/Navbar.tsx:45 | length < 4: both halves are the whole address |
| Navbar.ShortAddressOverlap | frontend/src/components/Navbar.tsx:45 | length < 10: a character is shown in both halves |
| Navbar.WalletLabel | frontend/src/components/Navbar.tsx:44-46 | the prompt is shown exactly when there is no connected, non-empty address |
| Navbar.LabelIff | frontend/src/components/Navbar.tsx:44-46 | 'Connect Wallet' exactly when not (connected and non-empty address); otherwise the shortened address |
| UseWallet.Load | frontend/src/features/wallet/useWallet.ts:8-15 | no provider: nothing; otherwise eth_accounts, and the address changes only to accounts[0] of a non-empty list |
| UseWallet.ConnectWallet | frontend/src/features/wallet/useWallet.ts:17-21 | no provider: 'MetaMask not installed', nothing requested, state unchanged; otherwise eth_requestAccounts and accounts[0] stored unguarded |
| UseWallet.ConnectEmptyStoresUndefined | frontend/src/features/wallet/useWallet.ts:19-20 | an empty account list stores undefined |
| UseWallet.DisconnectWallet | frontend/src/features/wallet/useWallet.ts:23 | the address becomes null, whatever it was |
| UseWallet.DisconnectIdempotent | frontend/src/features/wallet/useWallet.ts:23 | disconnecting is idempotent and returns to the initial state |
| UseWallet.AddressKind | frontend/src/features/wallet/useWallet.ts:6-23 | from null or an address, load and disconnect keep null or an address; connect does so iff there is no provider, the request is rejected, or the account list is non-empty |
| UseMetaMask.Mount | frontend/src/hooks/useMetaMask.ts:11-13 | the mount effect sets only the installed flag |
| UseMetaMask.Connect | frontend/src/hooks/useMetaMask.ts:15-33 | not installed: error set, no request, isConnecting untouched; installed: error cleared and isConnecting set first, 'No provider found' or the failure's message (or 'Failed to connect to MetaMask'), isConnecting false at the end, accounts not stored |
| UseMetaMask.ConnectSettles | frontend/src/hooks/useMetaMask.ts:30-32 | starting idle, connect always ends idle |
| Strings.IndexOf | frontend/src/lib/blockchain/useContract.ts:189 | the first occurrence of the pattern, or none exactly when it does not occur |
| Strings.ReplaceFirst | frontend/src/lib/blockchain/useContract.ts:189 | JavaScript `replace` with a string pattern: unchanged without an occurrence, otherwise only the leftmost occurrence is replaced |
| Strings.ReplaceFirstLeading | frontend/src/lib/blockchain/useContract.ts:189 | `replace` with a string pattern only rewrites the first occurrence |
| Strings.ReplaceAll | backend/auth/routes.py:42 | Python `replace`: a replacement no longer than the pattern never lengthens the string, one no shorter never shortens it |
| Strings.ReplaceAllAtFirst | backend/auth/routes.py:42 | Python `replace` keeps the text before the first occurrence, replaces that occurrence and resumes the scan right after it; with ReplaceAllAbsent this pins the result down for every input |
| Strings.ReplaceAllLeading | backend/auth/routes.py:42 | Python `replace` removes a leading occurrence and goes on with the rest |
| Strings.ReplaceAllAbsent | backend/auth/routes.py:42 | without an occurrence the header is kept verbatim |
| Strings.ReplaceAllDeleteShrinks | backend/auth/routes.py:42 | deleting occurrences never lengthens the header, and a changed header contained one |
| Strings.LowerEqualIff | backend/auth/wallet.py:23 | comparing lower-cased strings is exactly character-wise case-insensitive equality |
| Strings.Lower | backend/auth/wallet.py:23 | ASCII `lower()` keeps the length and lower-cases each character on its own |
| AuthWallet.Hex | backend/auth/wallet.py:16 | two lower-case hex digits per byte |
| AuthWallet.HexRoundTrip | backend/auth/wallet.py:16 | the bytes can be recovered from their hex text |
| AuthWallet.HexInjective | backend/auth/wallet.py:16 | different entropy gives different nonces |
| AuthWallet.GenerateNonce | backend/auth/wallet.py:14-16 | 64 characters from [0-9a-f] that encode the 32 random bytes |
| AuthWallet.Challenge | backend/auth/wallet.py:50 | exactly 'Sign this message to verify your wallet ownership. Nonce: ' followed by the nonce |
| AuthWallet.ChallengeInjective | backend/auth/wallet.py:50 | distinct nonces give distinct challenges |
| AuthWallet.VerifySignature | backend/auth/wallet.py:18-25 | true iff recovery did not raise and the recovered address equals the claimed one ignoring case |
| AuthWallet.VerifyAuthToken | backend/auth/wallet.py:35-43 | an invalid token or one with exp ≤ now is rejected; a decodable, unexpired token gives its address claim, and raises KeyError when the claim is missing |
| AuthWallet.CreateAuthToken | backend/auth/wallet.py:27-33 | under a round-tripping codec the token reads back as the address with an expiry one day after now |
| AuthWallet.TokenRoundTrip | backend/auth/wallet.py:27-43 | under a round-tripping codec, a token created at t verifies to its address before t + 1 day and is rejected from then on |
| AuthWallet.VerifyWalletOwnership | backend/auth/wallet.py:45-55 | (True, token) iff the signature over the challenge verifies, (False, None) otherwise; the token carries the address and exp = now + 1 day |
| AuthRoutes.GetNonce | backend/auth/routes.py:20-23 | the body's nonce is 64 hex digits encoding the entropy |
| AuthRoutes.VerifyWallet | backend/auth/routes.py:25-40 | 401 'Invalid signature' exactly when the ownership check fails; otherwise the issued token and the request's address verbatim |
| AuthRoutes.ExtractToken | backend/auth/routes.py:42 | the header (empty when absent) with every 'Bearer ' deleted: unchanged without an occurrence, otherwise the text before the first occurrence followed by the rest with its occurrences deleted; never longer than the header |
| AuthRoutes.ExtractionAbsent | backend/auth/routes.py:42 | a header without 'Bearer ' is the token as it is |
| AuthRoutes.ExtractionAtFirst | backend/auth/routes.py:42 | the first 'Bearer ' is deleted, the text before it kept, and the rest of the header scanned the same way |
| AuthRoutes.ExtractTokenExamples | backend/auth/routes.py:42 | 'Bearer Bearer t' gives 't' and 'xBearer y' gives 'xy': repeated and interior occurrences are deleted too |
| AuthRoutes.GetCurrentWallet | backend/auth/routes.py:42-47 | a verified non-empty address is returned, and only such a one; an invalid, expired or empty-address token is 401 'Invalid or expired token'; a token without an address claim raises |
| AuthRoutes.BearerPrefixOptional | backend/auth/routes.py:42 | a token is read the same with or without the 'Bearer ' prefix |
| AuthRoutes.IssuedTokenAccepted | backend/auth/routes.py:42-47 | a token from /verify sent back as a bearer token within a day identifies its address |
| AuthRoutes.ExpiredTokenRefused | backend/auth/routes.py:42-47 | after a day the same header is refused with 401 |

## Left out

- Wallet, ethers, axios/Pinata, `fetch`, AppKit: these are external I/O. Only their outcomes are modelled, as parameters.
- `getContract` (useContract.ts:86-122) is not modelled separately. Its outcome is part of the `listing` and `minted` parameters of `Contract.FetchTheories` and `Contract.MintNft`.
- The contract calls made inside `mintNFT` up to the receipt (signer, balance, `mintTheory`, `wait`) are folded into the one `minted` outcome. The second `tokenCounter()` read and the `tokenURI` read are outcome parameters. The `tokenURI` outcome does not depend on the computed id.
- `openWalletModal` (ReownProvider.tsx:34-41) only calls the SDK or logs, so it is not modelled.
- The Reown mount effect's subscription setup and cleanup (ReownProvider.tsx:84-128) are left out. Only the callback is modelled.
- JSON encoding and decoding through the pinning service and the gateway are treated as the identity on the metadata record. Metadata with missing or mistyped fields is not modelled, and neither is a missing `IpfsHash` (which would give "ipfs://undefined").
- `fetchTheories` reads the clock once per call in the model. The source reads it once per token that needs the fallback.
- The token count of `fetchTheories` is a `nat`. Its comparison with the `number` loop index is legal in JavaScript and exact for counts below 2^53.
- React re-render timing, stale closures and async interleaving are not modelled. Each operation runs to completion.
- ECDSA recovery, `encode_defunct`, HS256 signing and `os.urandom` are abstract parameters. The codec's only law is the `RoundTrips` predicate, used as a hypothesis.
- PyJWT's own checks are split. The signature and format check is the abstract decoder. The `exp` check (expired when exp ≤ now, no leeway) is modelled. Time is in whole seconds, as PyJWT stores `exp`.
- AuthWallet.VerifySignature: uses ASCII case folding. Python's `str.lower` also folds non-ASCII letters, which hexadecimal addresses never contain.
- Strings.Lower: folds ASCII letters only and so keeps the length; Python's `str.lower` can lengthen non-ASCII text (`'İ'.lower()` has two code points), which the hexadecimal addresses it is applied to never contain.
- AuthRoutes.GetCurrentWallet: models the dependency as if the lambda received the incoming request. As written, FastAPI binds the unannotated parameter `x` as a required query parameter, so the header is never read: a request without `?x=` is answered 422 and one with it 500 (a string has no `headers`). The model does not state this. Starlette's case-insensitive header lookup is not modelled either: the header value is an input.
- `SECRET_KEY` configuration and the JWT secret are not modelled.
- Rendering (`TheoryCard.tsx`, `app/page.tsx`, `MetaMaskProvider.tsx`), SDK setup (`reown.ts`, `web3modal.ts`, `Web3ModalProvider.tsx`) and the `WalletConnect.tsx` debug polling are left out. So are the HTTP wrappers in `api.ts`, the environment probes in `metamask.ts` (the model's "provider present" input), type declarations, build configuration and deploy scripts. The NFT contract's source is not part of this model.
- JavaScript values other than the ones listed in `Js.Value` (symbols, `bigint` as an account) are not modelled. Functions are distinguished from objects only by `typeof`.
- Runtime details that the call sites never reach are simplified: `number` subtraction is exact (`Js.Subtract` only ever sees a `bigint` count), JavaScript `replace` does not interpret `$` patterns (the gateway prefix has none), and `slice` counts characters, not UTF-16 code units (addresses are ASCII).
- `WalletConnectButton.tsx:12` repeats the Navbar's shortening formula, which `Navbar.ShortAddress` models once.

## Findings

| source | as written | input that shows it | evidently intended | confidence | as-written member | corrected member |
|---|---|---|---|---|---|---|
| frontend/src/lib/blockchain/useContract.ts:152 | `tokenCount - 1`, where ethers v6 returns `tokenCounter()` as a `bigint` | any mint whose receipt arrives: the subtraction throws "Cannot mix BigInt and other types, use explicit conversions", `fetchTheories` is skipped and `mintNFT` rejects | `tokenCount - 1n` (or `Number(tokenCount) - 1`) | high, not executed | Contract.MintNft | Contract.MintNftCorrected |
