/**
 * The album page: an album id typed by the buyer is checked against the
 * UUID layout of RFC 4122 (section 3) before the album's photos are fetched;
 * the fetched photos are remembered, and "add to cart" only works for a photo
 * among them. It shares the stored cart with the gallery page.
 */
module AlbumGallery {
  import opened Base
  import opened JsText
  import opened GalleryCart
  import Downloads

  predicate IsHexDigit(c: char) {
    ('0' <= c <= '9') || ('a' <= c <= 'f') || ('A' <= c <= 'F')
  }

  predicate IsDashPosition(i: int) {
    i == 8 || i == 13 || i == 18 || i == 23
  }

  /** `^[0-9a-fA-F]{8}-[0-9a-fA-F]{4}-[0-9a-fA-F]{4}-[0-9a-fA-F]{4}-[0-9a-fA-F]{12}$`. */
  predicate IsUuid(s: string) {
    |s| == 36 && forall i :: 0 <= i < 36 ==> if IsDashPosition(i) then s[i] == '-' else IsHexDigit(s[i])
  }

  predicate AllHex(s: string) {
    forall i :: 0 <= i < |s| ==> IsHexDigit(s[i])
  }

  /** The layout read as five groups of hex digits of lengths 8, 4, 4, 4 and
      12 joined by dashes: every such joining is accepted, and every accepted
      string is one. */
  lemma {:induction false} UuidGroups(a: string, b: string, c: string, d: string, e: string)
    requires |a| == 8 && |b| == 4 && |c| == 4 && |d| == 4 && |e| == 12
    ensures IsUuid(a + "-" + b + "-" + c + "-" + d + "-" + e) <==> AllHex(a) && AllHex(b) && AllHex(c) && AllHex(d) && AllHex(e)
  {
    var s := a + "-" + b + "-" + c + "-" + d + "-" + e;
    assert forall i :: 0 <= i < 8 ==> s[i] == a[i];
    assert forall i :: 0 <= i < 4 ==> s[9 + i] == b[i] && s[14 + i] == c[i] && s[19 + i] == d[i];
    assert forall i :: 0 <= i < 12 ==> s[24 + i] == e[i];
    assert s[8] == '-' && s[13] == '-' && s[18] == '-' && s[23] == '-';
    if AllHex(a) && AllHex(b) && AllHex(c) && AllHex(d) && AllHex(e) {
      forall i | 0 <= i < 36 ensures if IsDashPosition(i) then s[i] == '-' else IsHexDigit(s[i]) {
        if i < 8 { assert s[i] == a[i]; }
        else if 8 < i < 13 { assert s[i] == b[i - 9]; }
        else if 13 < i < 18 { assert s[i] == c[i - 14]; }
        else if 18 < i < 23 { assert s[i] == d[i - 19]; }
        else if 23 < i { assert s[i] == e[i - 24]; }
      }
    }
    if IsUuid(s) {
      forall i | 0 <= i < 8 ensures IsHexDigit(a[i]) { assert s[i] == a[i]; }
      forall i | 0 <= i < 4 ensures IsHexDigit(b[i]) && IsHexDigit(c[i]) && IsHexDigit(d[i]) {
        assert s[9 + i] == b[i] && s[14 + i] == c[i] && s[19 + i] == d[i];
      }
      forall i | 0 <= i < 12 ensures IsHexDigit(e[i]) { assert s[24 + i] == e[i]; }
    }
  }

  /** An id the page accepts also passes the server's looser check (36
      characters, each a hex digit or a dash), and contains no white space,
      so trimming it changes nothing. */
  lemma {:induction false} UuidPassesServerCheck(s: string)
    requires IsUuid(s)
    ensures Downloads.IdShaped(s)
    ensures NoSpace(s) && Trim(s) == s
  {
    forall i | 0 <= i < |s| ensures Downloads.IsHexOrDash(s[i]) && !IsSpace(s[i]) {
      if IsDashPosition(i) { assert s[i] == '-'; } else { assert IsHexDigit(s[i]); }
    }
  }

  /** The answer to `GET /albums/{id}/photos`: the photos (an absent list
      read as empty), a non-OK answer, or a network or parse error. */
  datatype AlbumResponse = AlbumPhotos(photos: seq<GalleryPhoto>) | NotOk | Threw

  datatype SearchOutcome =
    | EmptyId            // nothing typed
    | MalformedId        // not a UUID: no request is made
    | Found(count: nat)
    | NoPhotos
    | LoadError
    | ConnectionError

  /** `currentAlbumPhotos.find(p => p.id === photoId)`. */
  function FindPhoto(photos: seq<GalleryPhoto>, photoId: string): (r: Option<GalleryPhoto>)
    ensures r.Some? ==> r.value in photos && r.value.id == photoId
    ensures r.None? <==> forall p :: p in photos ==> p.id != photoId
  {
    if photos == [] then None
    else if photos[0].id == photoId then Some(photos[0])
    else
      assert forall p :: p in photos ==> p == photos[0] || p in photos[1..];
      FindPhoto(photos[1..], photoId)
  }

  class AlbumPage {
    /** The photos of the album last loaded (`currentAlbumPhotos` in storage). */
    var currentAlbumPhotos: seq<GalleryPhoto>
    /** The cart in storage, shared with the gallery page. */
    const stored: StoredCart

    constructor (stored: StoredCart)
      ensures this.stored == stored && currentAlbumPhotos == []
    {
      this.stored := stored;
      currentAlbumPhotos := [];
    }

    /** The search button: the trimmed id must be present and a UUID before
        the previous album's photos are dropped and the new ones fetched. */
    method Search(input: string, response: AlbumResponse) returns (outcome: SearchOutcome)
      modifies this
      ensures outcome == EmptyId <==> Trim(input) == ""
      ensures outcome == MalformedId <==> Trim(input) != "" && !IsUuid(Trim(input))
      ensures outcome == EmptyId || outcome == MalformedId ==> currentAlbumPhotos == old(currentAlbumPhotos)
      ensures outcome.Found? <==> IsUuid(Trim(input)) && response.AlbumPhotos? && |response.photos| > 0
      ensures outcome.Found? ==> outcome.count == |response.photos| && currentAlbumPhotos == response.photos
      ensures outcome == NoPhotos <==> IsUuid(Trim(input)) && response == AlbumPhotos([])
      ensures outcome == LoadError <==> IsUuid(Trim(input)) && response == NotOk
      ensures outcome == ConnectionError <==> IsUuid(Trim(input)) && response == Threw
      ensures outcome != EmptyId && outcome != MalformedId && !outcome.Found? ==> currentAlbumPhotos == []
    {
      var albumId := Trim(input);
      if albumId == "" {
        return EmptyId;
      }
      if !IsUuid(albumId) {
        return MalformedId;
      }
      currentAlbumPhotos := [];
      match response {
        case AlbumPhotos(photos) =>
          if |photos| > 0 {
            currentAlbumPhotos := photos;
            outcome := Found(|photos|);
          } else {
            outcome := NoPhotos;
          }
        case NotOk =>
          outcome := LoadError;
        case Threw =>
          outcome := ConnectionError;
      }
    }

    /** An "add to cart" button: only a photo of the loaded album is added. */
    method ClickAdd(photoId: string) returns (added: bool)
      modifies stored
      ensures added <==> exists p :: p in currentAlbumPhotos && p.id == photoId
      ensures !added ==> stored.items == old(stored.items)
      ensures added ==> stored.items == Added(old(stored.items), FindPhoto(currentAlbumPhotos, photoId).value)
    {
      var photo := FindPhoto(currentAlbumPhotos, photoId);
      if photo.None? {
        return false;
      }
      stored.AddToCart(photo.value);
      added := true;
    }

    /** The checkout button: an empty cart or an address without `@` (or a
        dismissed prompt) sends nothing; on success the stored cart and the
        remembered photos are cleared. */
    method Checkout(email: Option<string>, response: Response) returns (request: Option<CheckoutRequest>)
      modifies this, stored
      ensures request.Some? <==> old(stored.items) != [] && email.Some? && email.value != "" && Includes(email.value, "@")
      ensures request.Some? ==> request.value == CheckoutRequest(old(stored.items), email.value)
      ensures request.Some? && response == Succeeded ==> stored.items == [] && currentAlbumPhotos == []
      ensures !(request.Some? && response == Succeeded) ==>
        stored.items == old(stored.items) && currentAlbumPhotos == old(currentAlbumPhotos)
    {
      if stored.items == [] {
        return None;
      }
      if email.None? || email.value == "" || !Includes(email.value, "@") {
        return None;
      }
      request := Some(CheckoutRequest(stored.items, email.value));
      if response == Succeeded {
        stored.items := [];
        currentAlbumPhotos := [];
      }
    }
  }
}
