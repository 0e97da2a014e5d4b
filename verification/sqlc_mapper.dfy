/** Conversions from generated row scalars to domain values. */
module SqlcMapper {
  import opened Wrappers
  import opened Scalars
  import opened Entities
  import opened Sqlc

  /** The wall-clock part of a timestamp; the validity flag and the infinity
      marker are dropped, so a NULL timestamp reads as its stored zero time. */
  function PgTimestampToTime(t: PgTimestamp): (r: Time)
    ensures r == t.time
  {
    t.time
  }

  /** Timestamps that differ only in validity or infinity marker read the same. */
  lemma PgTimestampIgnoresValidity(t: PgTimestamp, u: PgTimestamp)
    requires t.time == u.time
    ensures PgTimestampToTime(t) == PgTimestampToTime(u)
    ensures PgTimestampToTime(t.(valid := true)) == PgTimestampToTime(t.(valid := false))
  {
  }

  /** A valid, finite timestamp of a domain time: the storage side of a round trip. */
  function ValidTimestamp(time: Time): PgTimestamp {
    PgTimestamp(time, Finite, true)
  }

  /** Reading back a valid timestamp gives the time it was made from, and a
      valid finite timestamp is remade exactly from what was read. */
  lemma PgTimestampRoundTrip(time: Time, t: PgTimestamp)
    ensures PgTimestampToTime(ValidTimestamp(time)) == time
    ensures t.valid && t.infinityModifier == Finite ==> ValidTimestamp(PgTimestampToTime(t)) == t
  {
  }

  /** The image a joined row refers to; an id of 0 is the zero row a missing
      image leaves, and means no image. */
  function ConvertNullableImage(row: ImageRow): (r: Option<Image>)
    ensures r.None? <==> row.id == 0
    ensures r.Some? ==> r.value.id == row.id && r.value.url == row.url
    ensures r.Some? ==> r.value.createdAt == PgTimestampToTime(row.createdAt)
    ensures r.Some? ==> r.value.updatedAt == PgTimestampToTime(row.updatedAt)
  {
    if row.id == 0 then None
    else Some(Image(row.id, PgTimestampToTime(row.createdAt), PgTimestampToTime(row.updatedAt), row.url))
  }

  /** The row an image is stored as, with valid timestamps. */
  function ImageToRow(image: Image): ImageRow {
    ImageRow(image.id, ValidTimestamp(image.createdAt), ValidTimestamp(image.updatedAt), image.url)
  }

  /** Images with a non-zero id survive a trip through their row, and rows
      with a non-zero id and valid finite timestamps survive a trip through
      their image; an image with id 0 is lost on the way. */
  lemma ImageRoundTrip(image: Image, row: ImageRow)
    ensures image.id != 0 ==> ConvertNullableImage(ImageToRow(image)) == Some(image)
    ensures image.id == 0 ==> ConvertNullableImage(ImageToRow(image)) == None
    ensures row.id != 0 && row.createdAt.valid && row.updatedAt.valid &&
            row.createdAt.infinityModifier == Finite && row.updatedAt.infinityModifier == Finite ==>
              ConvertNullableImage(row).Some? && ImageToRow(ConvertNullableImage(row).value) == row
  {
  }
}
