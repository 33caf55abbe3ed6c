/**
 A media segment and the two files that can carry its data.

 `SegmentValue` is the state of one `Segment` object as a value; the class carries the accessors.
 Whether a broadcast file is complete is asked of the FLUTE library, so the set of
 completed file identities is a parameter.
 */
module Segments {
  import opened Wrappers

  const TWO_32: nat := 0x1_0000_0000
  const TWO_64: nat := 0x1_0000_0000_0000_0000

  /** Conversion to `uint32_t`. */
  function U32(n: nat): nat { n % TWO_32 }

  /** Conversion of an `int` to `size_t`. */
  function SizeT(n: int): nat { n % TWO_64 }

  /** A file delivered by broadcast. Every delivered file object has its own `id`. */
  datatype FluteFile = FluteFile(id: nat, location: string, content: string, receivedAt: nat)

  /** A file fetched from the CDN. */
  datatype CdnFile = CdnFile(content: string)

  datatype ItemSource = Broadcast | CDN | Generated | Unavailable

  /** The file a segment serves. */
  datatype Data = NoData | FluteData(flute: FluteFile) | CdnData(cdn: CdnFile)

  datatype SegmentValue = SegmentValue(
    uri: string, nr: int, extinf: int, cdnClient: Option<string>,
    flute: Option<FluteFile>, cdn: Option<CdnFile>, receivedAt: nat)

  /** Broadcast before CDN before nothing: the choice all three accessors must agree on. */
  function Chosen(s: SegmentValue, complete: set<nat>): Data {
    if s.flute.Some? && s.flute.value.id in complete then FluteData(s.flute.value)
    else if s.cdn.Some? then CdnData(s.cdn.value)
    else NoData
  }

  function BufferOf(d: Data): Option<string> {
    match d case NoData => None case FluteData(f) => Some(f.content) case CdnData(c) => Some(c.content)
  }

  function LengthOf(d: Data): nat {
    match d case NoData => 0 case FluteData(f) => U32(|f.content|) case CdnData(c) => U32(|c.content|)
  }

  function SourceOf(d: Data): ItemSource {
    match d case NoData => Unavailable case FluteData(_) => Broadcast case CdnData(_) => CDN
  }

  /** A request to the CDN client that was made for `base`. */
  datatype Request = Request(base: string, location: string)

  /** Without data, asking for the buffer asks the CDN for the file. */
  function RequestFor(s: SegmentValue, complete: set<nat>): Option<Request> {
    if Chosen(s, complete).NoData? && s.cdnClient.Some? then Some(Request(s.cdnClient.value, s.uri)) else None
  }

  /** Unavailable, then CDN, then Broadcast. */
  function Rank(s: ItemSource): nat {
    match s case Broadcast => 2 case CDN => 1 case Generated => 0 case Unavailable => 0
  }

  class Segment {
    const uri: string
    const nr: int
    const extinf: int
    ghost const id: nat
    var cdnClient: Option<string>
    var fluteFile: Option<FluteFile>
    var cdnFile: Option<CdnFile>
    var receivedAt: nat

    constructor (uri: string, nr: int, extinf: int, ghost id: nat)
      ensures this.id == id && Value() == SegmentValue(uri, nr, extinf, None, None, None, 0)
    {
      this.uri, this.nr, this.extinf, this.id := uri, nr, extinf, id;
      cdnClient, fluteFile, cdnFile, receivedAt := None, None, None, 0;
    }

    function Value(): SegmentValue
      reads this
    {
      SegmentValue(uri, nr, extinf, cdnClient, fluteFile, cdnFile, receivedAt)
    }

    method SetCdnClient(base: string)
      modifies this
      ensures Value() == old(Value()).(cdnClient := Some(base))
    {
      cdnClient := Some(base);
    }

    method SetFluteFile(file: FluteFile)
      modifies this
      ensures Value() == old(Value()).(flute := Some(file), receivedAt := file.receivedAt)
    {
      fluteFile := Some(file);
      receivedAt := file.receivedAt;
    }

    /** The request that goes out; its answer is `CdnFileReceived`. */
    method FetchFromCdn() returns (request: Option<Request>)
      ensures request == match cdnClient case None => None case Some(base) => Some(Request(base, uri))
    {
      request := if cdnClient.Some? then Some(Request(cdnClient.value, uri)) else None;
    }

    /** The completion of a request: the callback passed to the CDN client. */
    method CdnFileReceived(file: CdnFile, now: nat)
      modifies this
      ensures Value() == old(Value()).(cdn := Some(file), receivedAt := now)
    {
      receivedAt := now;
      cdnFile := Some(file);
    }

    /** The data to serve, or else the request for it. */
    method Buffer(complete: set<nat>) returns (buffer: Option<string>, request: Option<Request>)
      ensures buffer == BufferOf(Chosen(Value(), complete))
      ensures request == RequestFor(Value(), complete)
    {
      if fluteFile.Some? && fluteFile.value.id in complete {
        buffer, request := Some(fluteFile.value.content), None;
      } else if cdnFile.Some? {
        buffer, request := Some(cdnFile.value.content), None;
      } else {
        request := FetchFromCdn();
        buffer := None;
      }
    }

    function ContentLength(complete: set<nat>): (n: nat)
      reads this
      ensures n == LengthOf(Chosen(Value(), complete))
    {
      if fluteFile.Some? && fluteFile.value.id in complete then U32(|fluteFile.value.content|)
      else if cdnFile.Some? then U32(|cdnFile.value.content|)
      else 0
    }

    function DataSource(complete: set<nat>): (s: ItemSource)
      reads this
      ensures s == SourceOf(Chosen(Value(), complete))
    {
      if fluteFile.Some? && fluteFile.value.id in complete then Broadcast
      else if cdnFile.Some? then CDN
      else Unavailable
    }
  }

  /** There is a buffer exactly when there is a source, and its length is that of the very same file. */
  lemma AccessorsAgree(s: SegmentValue, complete: set<nat>)
    ensures var d := Chosen(s, complete);
      && (BufferOf(d).Some? <==> SourceOf(d) != Unavailable)
      && (BufferOf(d).Some? ==> LengthOf(d) == U32(|BufferOf(d).value|))
      && (BufferOf(d).None? ==> LengthOf(d) == 0)
      && (SourceOf(d) == Broadcast <==> s.flute.Some? && s.flute.value.id in complete)
      && (SourceOf(d) == Broadcast ==> BufferOf(d) == Some(s.flute.value.content))
      && (SourceOf(d) == CDN ==> s.cdn.Some? && BufferOf(d) == Some(s.cdn.value.content))
  {}

  /** The order of the sources. */
  lemma RankOrder(a: ItemSource, b: ItemSource)
    requires a != Generated && b != Generated
    ensures Rank(a) <= Rank(b) <==> a == b || a == Unavailable || b == Broadcast
  {}
}
