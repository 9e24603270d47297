/** MongoDB ObjectIds as they appear in documents and in URL paths. */
module ObjectIds {
  import opened Js

  const Width := 24

  predicate IsHexDigit(c: char) {
    '0' <= c <= '9' || 'a' <= c <= 'f' || 'A' <= c <= 'F'
  }

  predicate IsLowerHexDigit(c: char) {
    '0' <= c <= '9' || 'a' <= c <= 'f'
  }

  /** The canonical text of an ObjectId: 24 lower-case hexadecimal digits. */
  predicate IsCanonical(s: string) {
    |s| == Width && forall i :: 0 <= i < |s| ==> IsLowerHexDigit(s[i])
  }

  type ObjectId = s: string | IsCanonical(s) witness "000000000000000000000000"

  /** Casting a path parameter such as `req.params.id` to an ObjectId, as
      `findById` does before it queries: 24 hexadecimal digits in either case
      cast (to lower case); anything else is a CastError. */
  function Cast(raw: string): (r: Option<ObjectId>)
    ensures r.Some? <==> |raw| == Width && forall i :: 0 <= i < |raw| ==> IsHexDigit(raw[i])
    ensures r.Some? ==> r.value == Lower(raw)
  {
    if |raw| == Width && forall i :: 0 <= i < |raw| ==> IsHexDigit(raw[i]) then
      var s := Lower(raw);
      assert forall i :: 0 <= i < |s| ==> IsLowerHexDigit(s[i]) by {
        forall i | 0 <= i < |s| ensures IsLowerHexDigit(s[i]) {
          assert s[i] == LowerChar(raw[i]);
        }
      }
      Some(s)
    else
      None
  }

  /** The id a response carries, put back into a URL, finds the same document. */
  lemma CastCanonical(id: ObjectId)
    ensures Cast(id) == Some(id)
  {
    assert forall i :: 0 <= i < |id| ==> IsHexDigit(id[i]);
    assert Lower(id) == id by {
      forall i | 0 <= i < |id| ensures Lower(id)[i] == id[i] {
        assert IsLowerHexDigit(id[i]);
      }
    }
  }

  /** Casting ignores the case of the hexadecimal digits. */
  lemma CastIgnoresCase(raw: string)
    ensures Cast(Lower(raw)) == Cast(raw)
  {
    var l := Lower(raw);
    forall i | 0 <= i < |raw|
      ensures IsHexDigit(l[i]) <==> IsHexDigit(raw[i])
      ensures LowerChar(l[i]) == LowerChar(raw[i])
    {
      assert l[i] == LowerChar(raw[i]);
    }
    if Cast(raw).Some? {
      assert Lower(l) == l;
    }
  }
}
