/**
 * The data-access layer as the controllers see it. The SQL store is not modelled:
 * each model object answers its queries from fixed answer functions (what the
 * database would return for that argument) and records every query it is asked, in
 * order, so that a handler's contract can say which queries it made.
 *
 * The review and inventory models catch database failures as their source does: a
 * failed insert becomes `null` or `false`, a failed read or delete is rethrown with a
 * fixed message. The account model's source file is not part of this model; its
 * functions are taken to return a value.
 */
module Stores {
  import opened Wrappers
  import opened Js
  import opened Html

  // ----- reviews -----

  /** A query sent to the review table. */
  datatype ReviewQuery =
    | InsertReview(text: Value, rating: Value, invId: Value, accountId: Value)
    | SelectReview(reviewId: Value)
    | DeleteReviewRow(reviewId: Value)

  const ReviewReadFailed := "Could not retrieve review details."
  const ReviewDeleteFailed := "Failed to delete review."

  class ReviewStore {
    /** The inserted row, or None when the insert fails. */
    const insertAnswer: (Value, Value, Value, Value) -> Option<Value>
    /** The first row for an identifier (`undefined` when there is none), or None when
        the query fails. */
    const selectAnswer: Value -> Option<Value>
    /** The number of rows deleted, or None when the query fails. */
    const deleteAnswer: Value -> Option<int>
    /** Every query made, in order. */
    var queries: seq<ReviewQuery>

    constructor (insertAnswer: (Value, Value, Value, Value) -> Option<Value>, selectAnswer: Value -> Option<Value>,
                 deleteAnswer: Value -> Option<int>)
      ensures this.insertAnswer == insertAnswer && this.selectAnswer == selectAnswer
      ensures this.deleteAnswer == deleteAnswer && queries == []
    {
      this.insertAnswer := insertAnswer;
      this.selectAnswer := selectAnswer;
      this.deleteAnswer := deleteAnswer;
      queries := [];
    }

    /** `submitReview`: the inserted row, or `null` when the insert fails. */
    method SubmitReview(text: Value, rating: Value, invId: Value, accountId: Value) returns (row: Value)
      modifies this`queries
      ensures queries == old(queries) + [InsertReview(text, rating, invId, accountId)]
      ensures row == insertAnswer(text, rating, invId, accountId).GetOr(Null)
    {
      queries := queries + [InsertReview(text, rating, invId, accountId)];
      row := insertAnswer(text, rating, invId, accountId).GetOr(Null);
    }

    /** `getReviewByReviewId`: the row (`undefined` when there is none); a failed query
        throws with a fixed message. */
    method GetReviewByReviewId(reviewId: Value) returns (r: Result<Value, JsError>)
      modifies this`queries
      ensures queries == old(queries) + [SelectReview(reviewId)]
      ensures r == ReviewRead(selectAnswer(reviewId))
    {
      queries := queries + [SelectReview(reviewId)];
      r := ReviewRead(selectAnswer(reviewId));
    }

    /** `deleteReview`: the number of deleted rows; a failed query throws with a fixed
        message. */
    method DeleteReview(reviewId: Value) returns (r: Result<int, JsError>)
      modifies this`queries
      ensures queries == old(queries) + [DeleteReviewRow(reviewId)]
      ensures deleteAnswer(reviewId).Some? ==> r == Ok(deleteAnswer(reviewId).value)
      ensures deleteAnswer(reviewId).None? ==> r == Err(PlainError(ReviewDeleteFailed))
    {
      queries := queries + [DeleteReviewRow(reviewId)];
      r := match deleteAnswer(reviewId)
        case Some(n) => Ok(n)
        case None => Err(PlainError(ReviewDeleteFailed));
    }
  }

  /** What a review read yields for the database's answer. */
  function ReviewRead(answer: Option<Value>): (r: Result<Value, JsError>)
    ensures answer.Some? ==> r == Ok(answer.value)
    ensures answer.None? ==> r == Err(PlainError(ReviewReadFailed))
  {
    match answer
    case Some(row) => Ok(row)
    case None => Err(PlainError(ReviewReadFailed))
  }

  // ----- accounts -----

  /** A query sent to the account table. */
  datatype AccountQuery =
    | SelectAccountByEmail(email: Value)
    | InsertAccount(firstname: Value, lastname: Value, email: Value, hashedPassword: string)
    | SelectAccountById(accountId: Value)
    | UpdateAccountRow(firstname: Value, lastname: Value, email: Value, accountId: Value)
    | UpdatePasswordRow(hashedPassword: string, accountId: Value)

  class AccountStore {
    const byEmail: Value -> Value
    const registerAnswer: (Value, Value, Value, string) -> Value
    const byId: Value -> Value
    const updateAnswer: (Value, Value, Value, Value) -> Value
    const passwordAnswer: (string, Value) -> Value
    var queries: seq<AccountQuery>

    constructor (byEmail: Value -> Value, registerAnswer: (Value, Value, Value, string) -> Value,
                 byId: Value -> Value, updateAnswer: (Value, Value, Value, Value) -> Value,
                 passwordAnswer: (string, Value) -> Value)
      ensures this.byEmail == byEmail && this.registerAnswer == registerAnswer && this.byId == byId
      ensures this.updateAnswer == updateAnswer && this.passwordAnswer == passwordAnswer
      ensures queries == []
    {
      this.byEmail := byEmail;
      this.registerAnswer := registerAnswer;
      this.byId := byId;
      this.updateAnswer := updateAnswer;
      this.passwordAnswer := passwordAnswer;
      queries := [];
    }

    method GetAccountByEmail(email: Value) returns (account: Value)
      modifies this`queries
      ensures queries == old(queries) + [SelectAccountByEmail(email)] && account == byEmail(email)
    {
      queries := queries + [SelectAccountByEmail(email)];
      account := byEmail(email);
    }

    method RegisterAccount(firstname: Value, lastname: Value, email: Value, hashedPassword: string) returns (r: Value)
      modifies this`queries
      ensures queries == old(queries) + [InsertAccount(firstname, lastname, email, hashedPassword)]
      ensures r == registerAnswer(firstname, lastname, email, hashedPassword)
    {
      queries := queries + [InsertAccount(firstname, lastname, email, hashedPassword)];
      r := registerAnswer(firstname, lastname, email, hashedPassword);
    }

    method GetAccountById(accountId: Value) returns (account: Value)
      modifies this`queries
      ensures queries == old(queries) + [SelectAccountById(accountId)] && account == byId(accountId)
    {
      queries := queries + [SelectAccountById(accountId)];
      account := byId(accountId);
    }

    method UpdateAccount(firstname: Value, lastname: Value, email: Value, accountId: Value) returns (r: Value)
      modifies this`queries
      ensures queries == old(queries) + [UpdateAccountRow(firstname, lastname, email, accountId)]
      ensures r == updateAnswer(firstname, lastname, email, accountId)
    {
      queries := queries + [UpdateAccountRow(firstname, lastname, email, accountId)];
      r := updateAnswer(firstname, lastname, email, accountId);
    }

    method UpdatePassword(hashedPassword: string, accountId: Value) returns (r: Value)
      modifies this`queries
      ensures queries == old(queries) + [UpdatePasswordRow(hashedPassword, accountId)]
      ensures r == passwordAnswer(hashedPassword, accountId)
    {
      queries := queries + [UpdatePasswordRow(hashedPassword, accountId)];
      r := passwordAnswer(hashedPassword, accountId);
    }
  }

  // ----- inventory -----

  /** A query sent to the inventory and classification tables. */
  datatype InventoryQuery =
    | SelectInventoryByClassification(classificationId: Value)
    | InsertClassification(name: Value)
    | InsertInventory(fields: seq<Value>)

  class InventoryStore {
    /** The joined rows of a classification, or the database's error, which is rethrown. */
    const rowsAnswer: Value -> Result<seq<InventoryRow>, JsError>
    /** Whether an insert succeeds; a failed insert is caught and gives `false`. */
    const classificationInserted: Value -> bool
    const inventoryInserted: seq<Value> -> bool
    var queries: seq<InventoryQuery>

    constructor (rowsAnswer: Value -> Result<seq<InventoryRow>, JsError>, classificationInserted: Value -> bool,
                 inventoryInserted: seq<Value> -> bool)
      ensures this.rowsAnswer == rowsAnswer && this.classificationInserted == classificationInserted
      ensures this.inventoryInserted == inventoryInserted && queries == []
    {
      this.rowsAnswer := rowsAnswer;
      this.classificationInserted := classificationInserted;
      this.inventoryInserted := inventoryInserted;
      queries := [];
    }

    method GetInventoryByClassificationId(classificationId: Value) returns (r: Result<seq<InventoryRow>, JsError>)
      modifies this`queries
      ensures queries == old(queries) + [SelectInventoryByClassification(classificationId)]
      ensures r == rowsAnswer(classificationId)
    {
      queries := queries + [SelectInventoryByClassification(classificationId)];
      r := rowsAnswer(classificationId);
    }

    /** `registerClassification`: the query result (an object, so truthy) or `false`. */
    method RegisterClassification(name: Value) returns (inserted: bool)
      modifies this`queries
      ensures queries == old(queries) + [InsertClassification(name)] && inserted == classificationInserted(name)
    {
      queries := queries + [InsertClassification(name)];
      inserted := classificationInserted(name);
    }

    /** `registerInventory`: the query result (truthy) or `false`. */
    method RegisterInventory(fields: seq<Value>) returns (inserted: bool)
      modifies this`queries
      ensures queries == old(queries) + [InsertInventory(fields)] && inserted == inventoryInserted(fields)
    {
      queries := queries + [InsertInventory(fields)];
      inserted := inventoryInserted(fields);
    }
  }
}
