/** The HTTP request: five read-only arrays and a mutable attribute bag. */
module HttpRequest {
  import opened Wrappers
  import opened PhpArrays
  import opened Values

  /** The reserved attribute names the router writes and the controller middleware reads. */
  const CONTROLLER_ATTRIBUTE := "_controller"
  const ACTION_ATTRIBUTE := "_action"
  const NAME_ATTRIBUTE := "_name"

  /** A string-keyed PHP array of values, in order. */
  type Entries = seq<(string, Value)>

  /** `$server[$key]` returned from a `string` function under strict_types: only a present string passes. */
  function ServerString(server: Entries, key: string): (r: Result<string>)
    ensures r.Ok? <==> exists s :: Get(server, key) == Some(Str(s))
    ensures r.Ok? ==> Get(server, key) == Some(Str(r.value))
    ensures r.Err? ==> r.error == TypeError
  {
    match Get(server, key)
    case Some(v) => if v.Str? then Ok(v.s) else Err(TypeError)
    case None => Err(TypeError)
  }

  /**
   * The attribute bag. The property has no initialiser and the constructor never sets it,
   * so it is None until the first withAttribute.
   */
  type Bag = Option<Entries>

  /** `$this->attributes[$key] ?? null`: an unset bag reads as null too. */
  function AttributeIn(bag: Bag, key: string): Value
  {
    match bag
    case None => Null
    case Some(e) =>
      match Get(e, key)
      case Some(v) => v
      case None => Null
  }

  /** `$this->attributes[$key] = $value`: the assignment brings the property into being. */
  function PutAttribute(bag: Bag, key: string, value: Value): (r: Bag)
    ensures r.Some?
  {
    Some(Put(if bag.Some? then bag.value else [], key, value))
  }

  ghost predicate ValidBag(bag: Bag)
  {
    bag.Some? ==> DistinctKeys(bag.value)
  }

  class Request {
    const server: Entries
    const query: Entries
    const request: Entries
    const cookies: Entries
    const files: Entries

    /** The attribute bag, in insertion order; None while the property is uninitialised. */
    var attributes: Bag

    ghost predicate Valid()
      reads this
    {
      ValidBag(attributes)
    }

    constructor(server: Entries, query: Entries := [], request: Entries := [], cookies: Entries := [], files: Entries := [])
      ensures Valid()
      ensures this.server == server && this.query == query && this.request == request
      ensures this.cookies == cookies && this.files == files
      ensures attributes == None
    {
      this.server := server;
      this.query := query;
      this.request := request;
      this.cookies := cookies;
      this.files := files;
      attributes := None;
    }

    /** REQUEST_URI; a missing or non-string entry fails the `string` return type. */
    function GetUri(): Result<string>
    {
      ServerString(server, "REQUEST_URI")
    }

    /** REQUEST_METHOD; a missing or non-string entry fails the `string` return type. */
    function GetMethod(): Result<string>
    {
      ServerString(server, "REQUEST_METHOD")
    }

    function IsMethodPost(): (r: Result<bool>)
      ensures r.Ok? <==> GetMethod().Ok?
      ensures r == Ok(true) <==> Get(server, "REQUEST_METHOD") == Some(Str("POST"))
    {
      var m :- GetMethod();
      Ok(m == "POST")
    }

    function GetAttribute(key: string): (r: Value)
      reads this
      ensures attributes.Some? && HasKey(attributes.value, key) ==> r == Get(attributes.value, key).value
      ensures attributes.None? || !HasKey(attributes.value, key) ==> r == Null
    {
      AttributeIn(attributes, key)
    }

    /** Reading the whole bag before any attribute was set fails: the property is uninitialised. */
    function GetAttributes(): (r: Result<Entries>)
      reads this
      ensures r.Ok? <==> attributes.Some?
      ensures r.Ok? ==> r.value == attributes.value
      ensures r.Err? ==> r.error == UninitializedProperty("attributes")
    {
      match attributes
      case Some(e) => Ok(e)
      case None => Err(UninitializedProperty("attributes"))
    }

    /** Sets one attribute on this very object and returns it. */
    method WithAttribute(key: string, value: Value) returns (self: Request)
      requires Valid()
      modifies this
      ensures Valid()
      ensures self == this
      ensures attributes == PutAttribute(old(attributes), key, value)
    {
      PutKeys(if attributes.Some? then attributes.value else [], key, value);
      attributes := PutAttribute(attributes, key, value);
      self := this;
    }
  }

  // ---------------------------------------------------------------- lemmas

  /** withAttribute then getAttribute: the new value for that key, the old one for every other key. */
  lemma AttributeAfterPut(bag: Bag, k: string, v: Value, k': string)
    ensures AttributeIn(PutAttribute(bag, k, v), k') == if k' == k then v else AttributeIn(bag, k')
  {
    PutGet(if bag.Some? then bag.value else [], k, v, k');
  }

  /** A stored null reads the same as an absent key. */
  lemma AttributeNullIff(e: Entries, k: string)
    ensures AttributeIn(Some(e), k) == Null <==> (!HasKey(e, k) || Get(e, k) == Some(Null))
  {
  }

  /** An existing key keeps its position; a new key is appended; the bag keeps distinct keys. */
  lemma AttributeOrder(e: Entries, k: string, v: Value)
    requires DistinctKeys(e)
    ensures PutAttribute(Some(e), k, v).value == Put(e, k, v)
    ensures Keys(Put(e, k, v)) == if HasKey(e, k) then Keys(e) else Keys(e) + [k]
    ensures ValidBag(PutAttribute(Some(e), k, v))
  {
    PutKeys(e, k, v);
  }
}
