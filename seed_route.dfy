/**
 * The roster seeding endpoint (`GET /api/seed-authorized-users`): open a store
 * client, fetch the roster CSV, parse it, and upsert every record into the
 * `student` table in a single call keyed on `email`.
 */
module SeedRoute {
  import opened Wrappers
  import opened Records
  import RosterCsv

  const StudentTable: string := "student"
  const ConflictKey: string := "email"

  /** The JSON body: `{ success: true, count }` or `{ success: false, error }`. */
  datatype Body = Seeded(count: nat) | SeedFailed(error: string)

  datatype JsonResponse = JsonResponse(status: int, body: Body)

  /**
   * The handler, with the fetch outcome and the store's reply to the upsert as
   * inputs. It answers 400 when a required header is missing, 500 when the
   * fetch or a short row throws or the store rejects the upsert, and 200 with
   * the number of records otherwise; the upsert is made only after a clean parse.
   */
  method Get(fetched: FetchOutcome, upsertReply: Option<StoreError>)
    returns (response: JsonResponse, calls: seq<RosterCall>)
    ensures fetched.FetchThrew? ==>
      response == JsonResponse(500, SeedFailed(fetched.message)) && calls == [CreateClient]
    ensures fetched.Fetched? && RosterCsv.ParseRoster(fetched.text) == Failure(RosterCsv.MissingHeaders) ==>
      response == JsonResponse(400, SeedFailed(RosterCsv.FormatErrorMessage)) && calls == [CreateClient]
    ensures fetched.Fetched? && RosterCsv.ParseRoster(fetched.text) == Failure(RosterCsv.UndefinedColumn) ==>
      response == JsonResponse(500, SeedFailed(RosterCsv.UndefinedTrimMessage)) && calls == [CreateClient]
    ensures fetched.Fetched? && RosterCsv.ParseRoster(fetched.text).Success? ==>
      var users := RosterCsv.ParseRoster(fetched.text).value;
      calls == [CreateClient, Upsert(StudentTable, users, ConflictKey)]
      && response == (if upsertReply.Some? then JsonResponse(500, SeedFailed(upsertReply.value.message))
                      else JsonResponse(200, Seeded(|users|)))
  {
    calls := [CreateClient];
    if fetched.FetchThrew? {
      return JsonResponse(500, SeedFailed(fetched.message)), calls;
    }
    var parsed := RosterCsv.ParseRosterText(fetched.text);
    match parsed {
      case Failure(e) =>
        if e == RosterCsv.MissingHeaders {
          response := JsonResponse(400, SeedFailed(RosterCsv.FormatErrorMessage));
        } else {
          response := JsonResponse(500, SeedFailed(RosterCsv.UndefinedTrimMessage));
        }
      case Success(users) =>
        calls := calls + [Upsert(StudentTable, users, ConflictKey)];
        if upsertReply.Some? {
          response := JsonResponse(500, SeedFailed(upsertReply.value.message));
        } else {
          response := JsonResponse(200, Seeded(|users|));
        }
    }
  }
}
