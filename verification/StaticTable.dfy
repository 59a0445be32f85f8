/** The static table of `qpack/table.rs` (Appendix A of RFC 9204), and the codebook that the
    library uses. */
module StaticTable {
  import opened Bytes
  import opened Fields
  import opened FieldLines
  import opened HuffmanCode
  import RfcHuffman

  function Octets(s: string): (r: bytes)
    ensures |r| == |s|
  {
    seq(|s|, i requires 0 <= i < |s| => if s[i] as int < 256 then s[i] as byte else 0)
  }

  function Entry(name: string, value: string): Field {
    Field(Octets(name), Octets(value))
  }

  function Table(): seq<Field> {
    [
      Entry(":authority", ""),
      Entry(":path", "/"),
      Entry("age", "0"),
      Entry("content-disposition", ""),
      Entry("content-length", "0"),
      Entry("cookie", ""),
      Entry("date", ""),
      Entry("etag", ""),
      Entry("if-modified-since", ""),
      Entry("if-none-match", ""),
      Entry("last-modified", ""),
      Entry("link", ""),
      Entry("location", ""),
      Entry("referer", ""),
      Entry("set-cookie", ""),
      Entry(":method", "CONNECT"),
      Entry(":method", "DELETE"),
      Entry(":method", "GET"),
      Entry(":method", "HEAD"),
      Entry(":method", "OPTIONS"),
      Entry(":method", "POST"),
      Entry(":method", "PUT"),
      Entry(":scheme", "http"),
      Entry(":scheme", "https"),
      Entry(":status", "103"),
      Entry(":status", "200"),
      Entry(":status", "304"),
      Entry(":status", "404"),
      Entry(":status", "503"),
      Entry("accept", "*/*"),
      Entry("accept", "application/dns-message"),
      Entry("accept-encoding", "gzip, deflate, br"),
      Entry("accept-ranges", "bytes"),
      Entry("access-control-allow-headers", "cache-control"),
      Entry("access-control-allow-headers", "content-type"),
      Entry("access-control-allow-origin", "*"),
      Entry("cache-control", "max-age=0"),
      Entry("cache-control", "max-age=2592000"),
      Entry("cache-control", "max-age=604800"),
      Entry("cache-control", "no-cache"),
      Entry("cache-control", "no-store"),
      Entry("cache-control", "public, max-age=31536000"),
      Entry("content-encoding", "br"),
      Entry("content-encoding", "gzip"),
      Entry("content-type", "application/dns-message"),
      Entry("content-type", "application/javascript"),
      Entry("content-type", "application/json"),
      Entry("content-type", "application/x-www-form-urlencoded"),
      Entry("content-type", "image/gif"),
      Entry("content-type", "image/jpeg"),
      Entry("content-type", "image/png"),
      Entry("content-type", "text/css"),
      Entry("content-type", "text/html; charset=utf-8"),
      Entry("content-type", "text/plain"),
      Entry("content-type", "text/plain;charset=utf-8"),
      Entry("range", "bytes=0-"),
      Entry("strict-transport-security", "max-age=31536000"),
      Entry("strict-transport-security", "max-age=31536000; includesubdomains"),
      Entry("strict-transport-security", "max-age=31536000; includesubdomains; preload"),
      Entry("vary", "accept-encoding"),
      Entry("vary", "origin"),
      Entry("x-content-type-options", "nosniff"),
      Entry("x-xss-protection", "1; mode=block"),
      Entry(":status", "100"),
      Entry(":status", "204"),
      Entry(":status", "206"),
      Entry(":status", "302"),
      Entry(":status", "400"),
      Entry(":status", "403"),
      Entry(":status", "421"),
      Entry(":status", "425"),
      Entry(":status", "500"),
      Entry("accept-language", ""),
      Entry("access-control-allow-credentials", "FALSE"),
      Entry("access-control-allow-credentials", "TRUE"),
      Entry("access-control-allow-headers", "*"),
      Entry("access-control-allow-methods", "get"),
      Entry("access-control-allow-methods", "get, post, options"),
      Entry("access-control-allow-methods", "options"),
      Entry("access-control-expose-headers", "content-length"),
      Entry("access-control-request-headers", "content-type"),
      Entry("access-control-request-method", "get"),
      Entry("access-control-request-method", "post"),
      Entry("alt-svc", "clear"),
      Entry("authorization", ""),
      Entry("content-security-policy", "script-src 'none'; object-src 'none'; base-uri 'none'"),
      Entry("early-data", "1"),
      Entry("expect-ct", ""),
      Entry("forwarded", ""),
      Entry("if-range", ""),
      Entry("origin", ""),
      Entry("purpose", "prefetch"),
      Entry("server", ""),
      Entry("timing-allow-origin", "*"),
      Entry("upgrade-insecure-requests", "1"),
      Entry("user-agent", ""),
      Entry("x-forwarded-for", ""),
      Entry("x-frame-options", "deny"),
      Entry("x-frame-options", "sameorigin")
    ]
  }

  lemma TableLength()
    ensures |Table()| == STATIC_TABLE_LEN
  {
    hide Entry;
  }

  function Library(): Codebook {
    Codebook(Table(), RfcHuffman.Table())
  }

  /** The library's own tables are usable: 99 static entries and a code that is prefix-free
      and complete. Everything proved for a usable codebook holds of the library. */
  lemma LibraryIsUsable()
    ensures Usable(Library())
  {
    hide Table, RfcHuffman.Table, GoodTable;
    TableLength();
    RfcHuffman.TableIsGood();
  }
}
