/** The API helpers of sample/api/restplus.py: the namespace naming helpers and the
    three error handlers that turn exceptions into HTTP responses. */
module Restplus {
  import opened Runtime
  import opened PersonModel
  import opened Authentication

  /** `s.replace(from, to)` for single characters. */
  function Replace(s: string, from: char, to: char): (r: string)
    ensures |r| == |s|
    ensures forall i :: 0 <= i < |s| ==> r[i] == if s[i] == from then to else s[i]
    decreases |s|
  {
    if s == [] then []
    else [if s[0] == from then to else s[0]] + Replace(s[1..], from, to)
  }

  /** `format_uri(entity_name)`: every '_' becomes '/'. */
  function FormatUri(entityName: string): (r: string)
    ensures |r| == |entityName| && '_' !in r
  {
    Replace(entityName, '_', '/')
  }

  /** `explode_entity_name(entity_name)`: every '_' becomes ' '. */
  function ExplodeEntityName(entityName: string): (r: string)
    ensures |r| == |entityName| && '_' !in r
  {
    Replace(entityName, '_', ' ')
  }

  /** A replacement of '_' by another character changes exactly the underscores, so
      the length is kept and no '_' is left; it is idempotent, and the identity on a
      name without '_'. */
  lemma ReplaceUnderscore(s: string, to: char)
    requires to != '_'
    ensures var r := Replace(s, '_', to);
      && |r| == |s|
      && '_' !in r
      && (forall i :: 0 <= i < |s| ==> (r[i] != s[i] <==> s[i] == '_'))
      && Replace(r, '_', to) == r
      && ('_' !in s ==> r == s)
  {
    var r := Replace(s, '_', to);
    assert forall i :: 0 <= i < |r| ==> r[i] != '_';
    assert Replace(r, '_', to) == r;
  }

  lemma FormatUriProperties(entityName: string)
    ensures var r := FormatUri(entityName);
      && |r| == |entityName|
      && '_' !in r
      && (forall i :: 0 <= i < |r| ==> r[i] == if entityName[i] == '_' then '/' else entityName[i])
      && FormatUri(r) == r
      && ('_' !in entityName ==> r == entityName)
  {
    ReplaceUnderscore(entityName, '/');
  }

  lemma ExplodeEntityNameProperties(entityName: string)
    ensures var r := ExplodeEntityName(entityName);
      && |r| == |entityName|
      && '_' !in r
      && (forall i :: 0 <= i < |r| ==> r[i] == if entityName[i] == '_' then ' ' else entityName[i])
      && ExplodeEntityName(r) == r
      && ('_' !in entityName ==> r == entityName)
  {
    ReplaceUnderscore(entityName, ' ');
  }

  /** The path and the description of a namespace. */
  datatype Namespace = Namespace(path: string, description: string)

  /** `name_space(entity_name)`. */
  function NameSpace(entityName: string): (r: Namespace)
    ensures |r.path| == |entityName| && '_' !in r.path
    ensures |r.description| == |DescriptionPrefix| + |entityName|
  {
    Namespace(FormatUri(entityName), "Operations related to " + ExplodeEntityName(entityName))
  }

  const DescriptionPrefix: string := "Operations related to "

  /** The path is the name with each '_' read as a path separator; the description
      is the fixed prefix followed by the name with each '_' read as a space. */
  lemma NameSpaceProperties(entityName: string)
    ensures var ns := NameSpace(entityName);
      && |ns.path| == |entityName| && '_' !in ns.path
      && (forall i :: 0 <= i < |entityName| ==> ns.path[i] == if entityName[i] == '_' then '/' else entityName[i])
      && |ns.description| == |DescriptionPrefix| + |entityName|
      && ns.description[..|DescriptionPrefix|] == DescriptionPrefix
      && (forall i :: 0 <= i < |entityName| ==>
            ns.description[|DescriptionPrefix| + i] == if entityName[i] == '_' then ' ' else entityName[i])
  {
    FormatUriProperties(entityName);
    ExplodeEntityNameProperties(entityName);
    var ns := NameSpace(entityName);
    assert ns.description[..|DescriptionPrefix|] == DescriptionPrefix;
  }

  /** A one-word entity name is both the path and the subject of the description. */
  lemma NameSpaceOfPlainName(entityName: string)
    requires '_' !in entityName
    ensures NameSpace(entityName) == Namespace(entityName, DescriptionPrefix + entityName)
  {
    ReplaceUnderscore(entityName, '/');
    ReplaceUnderscore(entityName, ' ');
  }

  /** The person resource is one such name. */
  lemma PersonNameSpace()
    ensures NameSpace("person") == Namespace("person", "Operations related to person")
  {
    assert '_' !in "person" by {
      assert "person" == ['p', 'e', 'r', 's', 'o', 'n'];
    }
    NameSpaceOfPlainName("person");
  }

  /** The body of a response, before the framework serialises it. */
  datatype Body =
    | NoBody                            // None
    | Message(text: string)             // {'message': text}
    | ErrorMessage(error: Error)        // {'message': e}
    | TokenBody(token: Token)           // {'token': token}
    | PersonList(rows: seq<PersonRow>)  // a marshalled list of persons
    | PersonBody(row: PersonRow)        // one marshalled person

  datatype Response = Response(body: Body, status: int)

  const NotFoundMessage: string := "A database result was not found"

  /** The handler the API picks for `e`: NoResultFound gives 404 with a fixed
      message, Unauthorized gives 401 without a body, and any other exception goes
      to the default handler and gives 500. */
  function HandleError(e: Error): (r: Response)
    ensures r.status == 404 <==> e == NoResultFound
    ensures r.status == 401 <==> e == Unauthorized
    ensures r.status == 500 <==> e != NoResultFound && e != Unauthorized
    ensures e == NoResultFound ==> r.body == Message("A database result was not found")
    ensures e == Unauthorized ==> r.body == NoBody
    ensures r.status == 500 ==> r.body == ErrorMessage(e)
  {
    match e
    case NoResultFound => DatabaseNotFoundErrorHandler(e)
    case Unauthorized => UnauthorizedErrorHandler(e)
    case _ => DefaultErrorHandler(e)
  }

  /** `default_error_handler(e)`. */
  function DefaultErrorHandler(e: Error): Response
  {
    Response(ErrorMessage(e), 500)
  }

  /** `database_not_found_error_handler(e)`. */
  function DatabaseNotFoundErrorHandler(e: Error): Response
  {
    Response(Message(NotFoundMessage), 404)
  }

  /** `unauthorized_error_handler(e)`. */
  function UnauthorizedErrorHandler(e: Error): Response
  {
    Response(NoBody, 401)
  }
}
