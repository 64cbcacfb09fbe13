/**
 * The chat endpoint `POST /api/chat`: it answers with one of three fixed
 * replies chosen from the content of the last message alone.
 *
 * The reply texts are written as concatenations of short pieces; the text is
 * exactly the endpoint's, and short pieces let the verifier reason about the
 * characters each reply contains.
 */
module ChatRoute {
  import opened Strings

  /** A message of the request body; a missing or empty content is "". */
  datatype ChatMessage = ChatMessage(role: string, content: string)

  /**
   * The request body: one the handler cannot read (not JSON, the JSON `null`,
   * or a last message whose content is truthy but not a string, on which
   * `toLowerCase` throws), or its `messages` (an absent list is []).
   */
  datatype Request = Unparsable | Parsed(messages: seq<ChatMessage>)

  /** The JSON answer: `{content}` with status 200, or `{error}` with an error status. */
  datatype Response = Reply(content: string) | Failure(status: nat, error: string)

  const FirstPuzzleParts: seq<string> := [
    "¡Perfecto! ", "Aquí tienes ", "tu primera ", "prueba:", "\n\n",
    "En la sombra ", "de gigantes ", "de hierro, ", "donde los ", "trenes partían ",
    "con silbidos ", "de vapor, ", "¿en qué año ", "llegó el ", "primero a ", "Málaga?", "\n\n",
    "Busca la ", "respuesta en ", "la estación ", "María Zambrano ", "y escríbela ", "aquí."]
  const FirstPuzzle: string := Concat(FirstPuzzleParts)

  const OpeningParts: seq<string> := ["¡Crack ", "absoluto! ", "1865 es ", "correcto."]
  const HistoryParts: seq<string> := [
    "El primer ", "tren llegó ", "a Málaga ", "en 1865, ", "conectando ", "la ciudad ",
    "con el resto ", "de España."]
  /** The score line up to its denominator. */
  const PointsParts: seq<string> := ["+300 ", "puntos. ", "Puntuación ", "total: ", "300"]
  const NextParts: seq<string> := [
    "Segunda ", "prueba: ", "Busca al ", "guardián ", "alado que ", "observa a ", "los ", "viajeros. "]
  const QuestionParts: seq<string> := ["¿Cuántos ", "ojos tiene ", "para ", "vigilar sin ", "descanso?"]

  const CongratulationOpening: string := Concat(OpeningParts)
  const CongratulationHistory: string := Concat(HistoryParts)
  const CongratulationPoints: string := Concat(PointsParts)
  const CongratulationDenominator: string := "/9000"
  const CongratulationNext: string := Concat(NextParts)
  const CongratulationQuestion: string := Concat(QuestionParts)

  const Congratulation: string :=
    CongratulationOpening + "\n\n" + CongratulationHistory + "\n\n" +
    CongratulationPoints + CongratulationDenominator + "\n\n" +
    CongratulationNext + CongratulationQuestion

  const WelcomeParts: seq<string> := [
    "¡Hola! ", "Soy el ", "Maestro del ", "Enigma de ", "Málaga Quest ", "- Zona ", "Vialia.", "\n\n",
    "Bienvenidos ", "a la aventura ", "urbana más ", "emocionante ", "de la estación ", "María Zambrano.", "\n\n",
    "Escribid ", "\"EMPEZAR\" ", "para comenzar ", "vuestras ", "9 pruebas.", "\n\n",
    "¡Las calles ", "de Vialia ", "guardan ", "secretos que ", "solo los ", "valientes ", "pueden ", "descubrir!"]
  const Welcome: string := Concat(WelcomeParts)

  const ErrorText: string := "Error procesando mensaje"

  /** The content of the last message; "" when there is none or it is missing. */
  function LastContent(messages: seq<ChatMessage>): string
  {
    if messages == [] then "" else messages[|messages| - 1].content
  }

  /** The reply chosen for the last message's content. */
  function CannedReply(last: string): (r: string)
    ensures r == FirstPuzzle || r == Congratulation || r == Welcome
  {
    if Contains(Lower(last), "empezar") then FirstPuzzle
    else if Contains(last, "1865") then Congratulation
    else Welcome
  }

  /** The endpoint: a readable body gets `{content}`, an unreadable one a 500 with `{error}`. */
  function Post(request: Request): (r: Response)
    ensures r.Reply? ==> r.content == FirstPuzzle || r.content == Congratulation || r.content == Welcome
  {
    match request
    case Unparsable => Failure(500, ErrorText)
    case Parsed(messages) => Reply(CannedReply(LastContent(messages)))
  }

  /** The three replies are three different texts. */
  lemma RepliesDistinct()
    ensures FirstPuzzle != Congratulation && FirstPuzzle != Welcome && Congratulation != Welcome
  {
    ConcatBeginsWithFirst(FirstPuzzleParts);
    ConcatBeginsWithFirst(OpeningParts);
    ConcatBeginsWithFirst(WelcomeParts);
    assert FirstPuzzle[1] == FirstPuzzleParts[0][1] == 'P';
    assert Congratulation[1] == CongratulationOpening[1] == OpeningParts[0][1] == 'C';
    assert Welcome[1] == WelcomeParts[0][1] == 'H';
  }

  /**
   * The first puzzle is given exactly when the lower-cased last message
   * contains "empezar", even if it also contains "1865"; the congratulation
   * exactly when it contains "1865" and not "empezar"; the welcome otherwise.
   */
  lemma CannedReplyChoice(last: string)
    ensures CannedReply(last) == FirstPuzzle <==> Contains(Lower(last), "empezar")
    ensures CannedReply(last) == Congratulation <==> !Contains(Lower(last), "empezar") && Contains(last, "1865")
    ensures CannedReply(last) == Welcome <==> !Contains(Lower(last), "empezar") && !Contains(last, "1865")
  {
    RepliesDistinct();
  }

  /** The reply depends on the last message only: earlier turns never change it. */
  lemma OnlyLastMessageCounts(earlier: seq<ChatMessage>, other: seq<ChatMessage>, last: ChatMessage)
    ensures Post(Parsed(earlier + [last])) == Post(Parsed(other + [last]))
    ensures Post(Parsed(earlier + [last])) == Reply(CannedReply(last.content))
  {
  }

  /** An empty or absent message list, or an empty last content, gets the welcome. */
  lemma NothingToReadGetsWelcome(messages: seq<ChatMessage>)
    requires messages == [] || messages[|messages| - 1].content == ""
    ensures Post(Parsed(messages)) == Reply(Welcome)
  {
    assert !Contains(Lower(""), "empezar");
    assert !Contains("", "1865");
  }

  /** A request fails exactly when the handler cannot read its body, and then with 500 and the fixed error text. */
  lemma PostOutcome(request: Request)
    ensures Post(request).Failure? <==> request.Unparsable?
    ensures Post(request).Failure? ==> Post(request) == Failure(500, "Error procesando mensaje")
  {
  }
}
