/** The IPFS side of theory creation: the mock image upload, the metadata
    upload to the pinning service, and `createAndUploadTheory`, which builds the
    metadata record that the contract hook later reads back. */
module Ipfs {
  import opened Wrappers
  import opened Js

  datatype Attribute = Attribute(traitType: string, value: string)

  /** The uploaded JSON document. `image` None is an absent key: `JSON.stringify`
      drops the `undefined` value. */
  datatype TheoryMetadata = TheoryMetadata(
    name: string,
    description: string,
    content: string,
    image: Option<string>,
    attributes: seq<Attribute>)

  /** A browser `File`. The mock upload ignores it, so only its name is kept;
      the model never reads its contents. */
  datatype ImageFile = ImageFile(name: string)

  const MockIpfsUri := "ipfs://QmMockHash123"
  const PinEndpoint := "https://api.pinata.cloud/pinning/pinJSONToIPFS"
  const JwtMissingMessage := "Pinata JWT not found. Please add NEXT_PUBLIC_PINATA_JWT to your .env file"
  const CreateFailedMessage := "Failed to create theory"
  const CategoryTrait := "Category"
  const CreationDateTrait := "Creation Date"

  /** Development mock: every file "uploads" to the same URI. */
  function UploadFileToIpfs(file: ImageFile): (uri: string)
    ensures uri == "ipfs://QmMockHash123/image"
  {
    MockIpfsUri + "/image"
  }

  /** The POST sent to the pinning service. */
  datatype PinRequest = PinRequest(url: string, authorization: string, body: TheoryMetadata)

  datatype Upload = Upload(requests: seq<PinRequest>, result: Result<string, Thrown>)

  /** `uploadToIPFS`. `jwt` is the build-time environment variable (None when
      unset); `pinned` is the pinning service's answer: the returned IpfsHash,
      or what axios threw. */
  function UploadToIpfs(metadata: TheoryMetadata, jwt: Option<string>, pinned: Result<string, Thrown>): (up: Upload)
    // A missing or empty token fails before any request.
    ensures (jwt.None? || jwt.value == "") <==> up.requests == []
    ensures (jwt.None? || jwt.value == "") ==> up.result == Failure(Raise(JwtMissingMessage))
    // Otherwise exactly one authenticated POST carrying the metadata.
    ensures jwt.Some? && jwt.value != "" ==>
      up.requests == [PinRequest(PinEndpoint, "Bearer " + jwt.value, metadata)]
    // The URI is the returned hash behind the ipfs scheme; errors pass through.
    ensures up.result.Success? <==> jwt.Some? && jwt.value != "" && pinned.Success?
    ensures up.result.Success? ==> up.result.value == "ipfs://" + pinned.value
    ensures up.requests != [] && pinned.Failure? ==> up.result == Failure(pinned.error)
  {
    if jwt.None? || jwt.value == "" then Upload([], Failure(Raise(JwtMissingMessage)))
    else
      var request := PinRequest(PinEndpoint, "Bearer " + jwt.value, metadata);
      match pinned
      case Success(hash) => Upload([request], Success("ipfs://" + hash))
      case Failure(e) => Upload([request], Failure(e))
  }

  /** The metadata record `createAndUploadTheory` builds. */
  function BuildMetadata(title: string, content: string, imageUrl: Option<string>, now: string): (m: TheoryMetadata)
    ensures m.name == title && m.content == content && m.image == imageUrl
    ensures m.description == "Theory: " + title
    // The creation time is the first, and only, "Creation Date" attribute.
    ensures |m.attributes| == 2 && m.attributes[1] == Attribute(CreationDateTrait, now)
    ensures m.attributes[0] == Attribute(CategoryTrait, "Theory") && CategoryTrait != CreationDateTrait
  {
    TheoryMetadata(
      title,
      "Theory: " + title,
      content,
      imageUrl,
      [Attribute(CategoryTrait, "Theory"), Attribute(CreationDateTrait, now)])
  }

  datatype Creation = Creation(metadata: TheoryMetadata, upload: Upload, result: Result<string, Thrown>)

  /** `createAndUploadTheory`: the image (if any) goes through the mock upload,
      the metadata goes to `uploadToIPFS`, and any failure is rethrown as one
      generic error. `now` is `new Date().toISOString()`. */
  function CreateAndUploadTheory(
    title: string, content: string, imageFile: Option<ImageFile>, now: string,
    jwt: Option<string>, pinned: Result<string, Thrown>): (c: Creation)
    ensures c.metadata.name == title
    ensures c.metadata.description == "Theory: " + title
    ensures c.metadata.content == content
    ensures c.metadata.image.Some? <==> imageFile.Some?
    ensures imageFile.Some? ==> c.metadata.image == Some(MockIpfsUri + "/image")
    ensures c.metadata.attributes == [Attribute("Category", "Theory"), Attribute("Creation Date", now)]
    // What is sent to the pinning service is exactly that record.
    ensures forall k :: 0 <= k < |c.upload.requests| ==> c.upload.requests[k].body == c.metadata
    // The upload is `uploadToIPFS` of that record, so the JWT guard and the pin decide.
    ensures c.upload == UploadToIpfs(c.metadata, jwt, pinned)
    ensures (jwt.None? || jwt.value == "") ==> c.upload.requests == [] && c.result.Failure?
    ensures jwt.Some? && jwt.value != "" && pinned.Success? ==> c.result == Success("ipfs://" + pinned.value)
    ensures c.result.Success? <==> c.upload.result.Success?
    ensures c.result.Success? ==> c.result.value == c.upload.result.value
    ensures c.result.Failure? ==> c.result.error == Raise("Failed to create theory")
  {
    var imageUrl := match imageFile case Some(f) => Some(UploadFileToIpfs(f)) case None => None;
    var metadata := BuildMetadata(title, content, imageUrl, now);
    var up := UploadToIpfs(metadata, jwt, pinned);
    var result := match up.result
      case Success(uri) => Success(uri)
      case Failure(_) => Failure(Raise(CreateFailedMessage));
    Creation(metadata, up, result)
  }
}
