# CheckoutMate shop core in Dafny

This project models the business logic of the CheckoutMate shop backend, a Django/REST framework application. It covers:

- a product table with its field constraints and default order;
- one cart per customer, edited by three cart actions;
- the checkout that turns a cart into a bill and takes the bought quantities from stock;
- the user manager, with the signal that gives each new customer a cart;
- the two request permissions;
- the low-stock trigger and the two inventory mail jobs;
- the password check of the registration serializer.

The database is a `Database` class. Its fields are the user, product, cart and bill tables and the next primary key of each table. `Database.Valid()` holds the schema's constraints: unique user keys and emails, valid product rows with unique keys and names, carts that belong to users and whose lines refer to products with at most one line per product, and cart and bill keys below the next key of their table. Each view or manager operation is a method that `modifies` the database. Its postcondition gives the whole new state and ties it to a specification function on values. Lemmas about those functions state what the source promises.

Checkout (`BillViews.GenerateBill`) is not written the way the source writes it. The source creates the bill row first and rolls the transaction back when a line is short of stock. The model stages the bill items and the new stock on local values (`Billing.StageCheckout`) and writes them only after every line has passed. The result is the same all-or-nothing outcome: on any error the database is unchanged.

Module layout, one module per source file of the core:

| module | file | source |
|---|---|---|
| `Wrappers` | wrappers.dfy | `Option` and `Result` |
| `Products` | products.dfy | products/models.py |
| `Accounts` | accounts.dfy | accounts/models.py: roles, `has_perm`, `has_module_perms`, `is_staff`, the checks in `create_user`, `normalize_email` |
| `Carts` | carts.dfy | the cart lines that cart/views.py edits |
| `Billing` | billing.dfy | the checkout computation of bills/views.py |
| `Database` | database.dfy | the tables and their constraints |
| `BillViews` | bill_views.dfy | bills/views.py `BillViewSet` |
| `CartViews` | cart_views.dfy | cart/views.py `CartViewSet` |
| `Permissions` | permissions.dfy | cart/permissions.py, products/permissions.py |
| `ProductTasks` | product_tasks.dfy | products/tasks.py |
| `ProductSignals` | product_signals.dfy | products/signals.py |
| `AccountSignals` | account_signals.dfy | accounts/signals.py |
| `UserManager` | user_manager.dfy | accounts/models.py `UserManager` |
| `Registration` | registration.dfy | accounts/serializers.py `UserRegistrationSerializer` |

Representation choices:

- Prices are whole cents.
- Strings are `seq<char>`.
- Optional request values (`request.data.get(...)`) are `Option`s.
- Python truthiness is spelled out where the source relies on it: an empty email, an id of 0 and an empty PDF are all false.
- The PDF that `generate_pdf` renders is a parameter, and the mail job that `generate_bill` enqueues is returned as a value.
- The two inventory jobs return the mail they would send.

## Model

| member | source | states |
|---|---|---|
| Products.NoViolationsKeepsCatalogValid | products/models.py:5-13 | A new row breaks none of the declared constraints exactly when adding it keeps the table valid. The constraints are: name at most 255 long, name unique, at most 10 digits, price at least 1.00, quantity not negative. |
| Products.NewProduct | products/models.py:13 | The quantity defaults to 0 when none is given. The other fields are as given. |
| Products.Lookup | cart/views.py:65-70 | `Product.objects.get(id=...)` finds a row with that key, or finds nothing exactly when no row has the key. |
| Products.LookupAt | bills/views.py:83 | With unique keys, looking up a row's key returns that very row. |
| Products.InsertOrdered | products/models.py:20-21 | Inserting a row into a table in listing order keeps the order. |
| Products.InsertPermutes | products/models.py:20-21 | Inserting adds exactly that row. |
| Products.ListingOrdered | products/models.py:20-21 | The default listing is ascending by price, then by quantity. |
| Products.ListingPermutes | products/models.py:20-21 | The listing holds exactly the table's rows, as a multiset. |
| Accounts.RoleFromValue | accounts/models.py:58-61 | A stored value names a role exactly when it is ADMIN, EMPLOYEE or CUSTOMER, and that role stores that value. |
| Accounts.RoleValueRoundTrip | accounts/models.py:58-61 | Every role reads back from its stored value. |
| Accounts.CapabilitiesAreAdminOnly | accounts/models.py:86-104 | `has_perm`, `has_module_perms` and `is_staff` each hold exactly for ADMIN, whatever permission or app label is asked. |
| Accounts.CheckNewUser | accounts/models.py:12-16 | A missing or empty email gives "Users must have an email address". This is checked before the role. Otherwise a role outside the three gives "Invalid role". Success holds exactly when both tests pass, and it yields the named role. |
| Accounts.LastAt | accounts/models.py:19 | Finds the last '@' of the address, or none exactly when there is no '@'. |
| Accounts.NormalizeEmailIdempotent | accounts/models.py:19 | Normalising an email twice gives the same result as once, and the part before the last '@' is kept as typed. |
| Carts.Find | cart/views.py:104-109 | Finds the line of the product, or nothing exactly when the cart has no line for it. |
| Carts.FindUnique | cart/views.py:72 | With one line per product, the line found for a line's product is that line. |
| Carts.QuantityInContents | cart/views.py:72-77 | The per-product quantity agrees with the cart's map view. A product is in the map exactly when it has a line. |
| Carts.AddedSpec | cart/views.py:72-79 | `add_item` leaves one line per product, and the product's quantity becomes its old quantity (0 without a line) plus the requested amount. A new product's line goes last, and every other line keeps its place and value. |
| Carts.UpdatedSpec | cart/views.py:111-115 | After `update_item_quantity` each product still has at most one line. A positive quantity sets the line to exactly that value, any other quantity removes the line, and a product without a line changes nothing. |
| Carts.RemovedSpec | cart/views.py:141 | `remove_item` removes exactly the named product: the map loses that key and nothing else. The line is gone, and the other lines keep their order. |
| Carts.UniqueAfterSet | cart/views.py:112-113 | Setting one line's quantity keeps one line per product and changes only that product in the map. |
| Carts.UniqueAfterDelete | cart/views.py:115 | Deleting one line keeps one line per product and drops only that product from the map. |
| Carts.UniqueAfterAppend | cart/views.py:72-75 | Appending a line for a new product keeps one line per product and adds only that product to the map. |
| Carts.WithoutUnique | cart/views.py:141 | Deleting a product's line gives the same lines as filtering that product out of the cart. |
| Billing.FirstShortLine | bills/views.py:91-98 | Finds the first line, in cart order, whose product has less stock than the line asks for. It finds none exactly when every line is covered. |
| Billing.StageCheckout | bills/views.py:85-110 | The staging loop aborts at the first short line with that product's name. Otherwise it returns the bill and the decremented stock that the checkout specification gives. |
| Billing.StageStep | bills/views.py:100-110 | One loop turn appends one frozen-price bill item and takes the line's quantity from its product. |
| Billing.CheckoutRejectsEmptyCart | bills/views.py:76-79 | No cart, or a cart without lines, gives "Cart is empty". |
| Billing.CheckoutReportsFirstShortLine | bills/views.py:91-98 | When line k is the first short line, the error names line k's product. |
| Billing.CheckoutSucceedsIffStocked | bills/views.py:76-98 | Checkout succeeds exactly when the cart has lines and every line's quantity is at most its product's stock. |
| Billing.TotalsAgree | bills/views.py:85-107 | The sum of price times quantity over the cart lines equals the same sum over the bill items. |
| Billing.CheckoutBill | bills/views.py:85-107 | A successful checkout gives a bill for the requesting user, under the given id. It has one item per cart line, in order, carrying the line's product and quantity and the product's current price. The total is the sum of price times quantity. |
| Billing.WithdrawnIsCartQuantity | bills/views.py:109-113 | With one line per product, the total the lines take from a product is that product's cart quantity. |
| Billing.CheckoutStock | bills/views.py:109-113 | After success, each product loses exactly its cart quantity: 0 for products not in the cart. Every other field of every row is unchanged. |
| Billing.CheckoutKeepsCatalogValid | bills/views.py:93-113 | The decrements never drive stock negative, the product table stays valid, and the same keys are found. |
| Billing.DecrementedKeepsKeys | bills/views.py:113 | `bulk_update(..., ['quantity'])` changes quantities only. |
| Billing.DecrementedNonNegative | bills/views.py:93-109 | If every line is covered by its product's stock, no decremented quantity is negative. |
| BillViews.UserBills | bills/views.py:24-29 | The bill query returns only the requesting user's bills, and all of them. |
| BillViews.CommitKeepsSchema | bills/views.py:112-115 | Writing the bill and the new stock and emptying the cart keep every schema constraint. |
| BillViews.GenerateBill | bills/views.py:68-128 | The result is the checkout specification's result for the user's cart. On error the database is unchanged. On success: the bill is appended, the products are the decremented stock, and the cart is kept with no lines. Users and the other keys are untouched. A mail job is produced exactly on success with a non-empty PDF, and it names the bill and the user's email. |
| CartViews.UserCarts | cart/views.py:17-20 | The cart query returns only the requesting user's cart, at most one. |
| CartViews.AddItem | cart/views.py:59-82 | A user without a cart gets the `get_user_cart` error. An unknown product gets "Product not found" with the cart unchanged. Otherwise the user's cart, and only it, becomes the `add_item` edit with the requested quantity (default 1). The answer is the saved line. |
| CartViews.AddToLines | cart/views.py:72-79 | `get_or_create` followed by `=` or `+=` produces the `add_item` edit and the saved line, keeping one line per product. |
| CartViews.UpdateItemQuantity | cart/views.py:98-118 | A product without a line gets "Item not found in cart" with the cart unchanged. Otherwise only the user's cart changes, by the set-or-delete edit. The answer is the saved line, or the deleted line as it was. |
| CartViews.UpdateLines | cart/views.py:111-115 | Saving a positive quantity or deleting the line produces the set-or-delete edit. |
| CartViews.RemoveItem | cart/views.py:124-142 | A missing or zero id gets "Product ID is required". A product without a line gets "Item not found in cart". Both leave the cart unchanged. Otherwise only the named line of the user's cart is deleted. |
| CartViews.RemoveLine | cart/views.py:141 | Deleting the line produces the remove edit and keeps the cart's constraints. |
| Permissions.IsCustomerDecision | cart/permissions.py:10-11 | Only an authenticated CUSTOMER passes. Anonymous users, employees and admins are refused, whatever the HTTP method. |
| Permissions.IsEmployeeOrReadOnlyDecision | products/permissions.py:6-9 | GET, HEAD and OPTIONS pass for anyone. Any other method passes exactly for an authenticated EMPLOYEE, so anonymous users, customers and admins are refused. |
| Permissions.ProductTestOutcomes | products/tests.py:34-130 | Anonymous reads pass. POST, PUT and DELETE pass for the employee and are refused for the customer. |
| ProductSignals.CheckProductQuantity | products/signals.py:7-10 | A saved product enqueues the low-stock job exactly when its quantity is below the job's threshold of 10, i.e. exactly when the job's filter would keep it. |
| ProductSignals.TriggerIgnoresCreated | products/signals.py:8-9 | The decision is the same for creation and update. A quantity of 9 triggers and 10 does not. |
| ProductSignals.TriggerFindsReportedRow | products/signals.py:9-10 | When a row of the table triggers, the job's report contains that row, so it is not empty. |
| ProductTasks.LowStock | products/tasks.py:12 | The filter keeps exactly the products with quantity below 10, each as many times as it appears in the table. |
| ProductTasks.LowStockOrdered | products/tasks.py:12 | Filtering keeps the query's order. |
| ProductTasks.LowStockReport | products/tasks.py:12-13 | The report over the default listing holds exactly the table's products below 10, each once per row, in listing order. It is empty exactly when no product is below 10. |
| ProductTasks.NatText | products/tasks.py:20 | The decimal text of a quantity is non-empty, all digits, and without leading zeros. |
| ProductTasks.IntText | products/tasks.py:20 | The text starts with '-' exactly for a negative number, and every other character is a digit. |
| ProductTasks.NatTextRoundTrip | products/tasks.py:20 | Decimal digits read back as the number printed. |
| ProductTasks.IntTextRoundTrip | products/tasks.py:20 | The printed quantity, sign included, reads back as the quantity. |
| ProductTasks.StockLinesAppend | products/tasks.py:19-20 | The lines for two runs of products are the lines of the first run followed by those of the second. |
| ProductTasks.StockLinesAt | products/tasks.py:19-20 | Product k's line `"<name>: <quantity>\n"` appears right after the lines of the products before it and right before those after it. |
| ProductTasks.AppendStockLines | products/tasks.py:18-20 | The `message +=` loop produces the header followed by one line per product, in order. |
| ProductTasks.EmployeeEmails | products/tasks.py:14-15 | The recipients are exactly the emails of EMPLOYEE users. |
| ProductTasks.CheckLowQuantityProducts | products/tasks.py:10-31 | No mail is produced exactly when no product is below 10. Otherwise the mail has the alert subject, the header and one line per low product in listing order, and it goes to the employees. |
| ProductTasks.SendDailyProductUpdate | products/tasks.py:34-51 | The mail has the daily subject, the header and one line per product in listing order, and it goes to the employees. |
| AccountSignals.CartsAfterSave | accounts/signals.py:9-10 | A created CUSTOMER gets exactly one new, empty cart and no other cart changes. An EMPLOYEE, an ADMIN or a re-save (`created` false) leaves the carts unchanged. |
| AccountSignals.FreshUserHasNoCart | accounts/signals.py:9-10 | The key of a user just inserted has no cart yet. |
| AccountSignals.CreateCartForCustomer | accounts/signals.py:7-10 | The receiver changes only the cart table and its next key, as `CartsAfterSave` says, and keeps the schema. |
| UserManager.NewUser | accounts/models.py:7-27 | The `create_user` checks come first, in their order. A normalised email already in use then fails the unique index. Creation succeeds exactly when both checks pass and the normalised email is unused. On success the row has the next key, the normalised email, the given name, age and role, is active and not admin, and carries the password through `set_password`. |
| UserManager.NewUserKeepsUsersValid | accounts/models.py:63-67 | Inserting the new row keeps keys and emails unique. |
| UserManager.FixedRoleIsValid | accounts/models.py:29-54 | With the role fixed by a helper, creation never fails with "Invalid role", and the row has that role. |
| UserManager.CreateUser | accounts/models.py:7-27 | The result is `NewUser`. On error the database is unchanged. On success the row is appended and the save's signal runs with `created` set. |
| UserManager.NewSuperuser | accounts/models.py:29-38 | A superuser has role ADMIN and `is_admin` set. Creation fails exactly when the email is missing or already in use. |
| UserManager.CreateSuperuser | accounts/models.py:29-38 | The ADMIN row is appended with `is_admin` set. Neither save creates a cart. |
| UserManager.CreateEmployee | accounts/models.py:40-46 | On success the new row, with role EMPLOYEE, is appended under the next key. No cart is created, and the product and bill tables are unchanged. |
| UserManager.CreateCustomer | accounts/models.py:48-54 | On success the new row, with role CUSTOMER, is appended under the next key, and exactly one empty cart is created for it. The product and bill tables are unchanged. |
| Registration.Submitted | accounts/serializers.py:6-11 | Only role, name, age, email, password and password2 are read. Each of them keeps the submitted value. |
| Registration.Validate | accounts/serializers.py:13-18 | "Passwords don't match" exactly when password and password2 differ. Otherwise the attributes come back unchanged. |
| Registration.RoleOf | accounts/models.py:76 | The given role is stored. Without one, the default CUSTOMER is stored. |
| Registration.InsertedUser | accounts/serializers.py:23 | `User.objects.create` stores the fields as given, with no email normalisation and an empty password column. |
| Registration.Create | accounts/serializers.py:20-27 | Both password keys are popped, so neither becomes a model field. The row inserted is built from the remaining fields, and its password is stored only through `set_password`. Both saves fire the cart signal, and only the first has `created` set. |

## Left out

- Concurrency is not modelled: parallel requests, transaction isolation and the database-side `F('quantity') - n`. A checkout is one atomic step, and the decrement is plain subtraction on the rows read at its start.
- PDF rendering (`generate_pdf`), email sending and Celery dispatch are I/O. The PDF is a parameter, and jobs and mails are returned values. The exception swallowed around `send_mail` in products/tasks.py does not arise.
- JWT issuance, `authenticate` and password hashing are library calls. `Hashed(raw)` stands for the hash of `raw`, and no hash function is modelled.
- Accounts.NormalizeEmail: lower-cases only ASCII letters after the last '@' and does not strip surrounding whitespace, since Django's `normalize_email` is a library function whose Unicode case mapping is outside this model.
- BillViews.GenerateBill: the model keeps the bill key counter unchanged on a failed checkout. A database sequence may advance when the source's rolled-back bill insert is undone.
- The serializer minimum of 0.01 at products/serializers.py:7 differs from the model's `MinValueValidator(1.00)` at products/models.py:11. The model follows products/models.py, and requests the serializer accepts below 1.00 are not modelled.
- The route of `remove_item` captures `product_id` in the URL, but the handler reads `product_id` from the request body, and its signature has no `product_id` parameter. DRF passes the captured `product_id=...` as a keyword argument, which `remove_item(self, request, pk=None)` does not accept, so a routed request raises `TypeError` and never reaches the body. CartViews.RemoveItem models the handler body, with the id taken from the request body, as if it were reached. The routing layer is outside this model.
- BillViews.UserBills: models only the `filter(user=...)` of `get_queryset`. Its `Prefetch("bills", ...)` names a relation that the latest migration (bills/migrations/0003_alter_billitem_bill.py) calls `items`, so the query as written fails with a server error once the user has a bill. No route shown evaluates the query, because `list`, `create` and `retrieve` are empty stubs.
- Rows with equal price and quantity have no order fixed by the source. `Products.Listing` keeps them in table order, meaning the order of the model's product sequence. Nothing ties that order to the primary keys.
- `int(...)` on the request's quantity text is not modelled. The views receive integers, and text that does not parse (a 500 error in the source) does not arise.
- Billing.Withdraw: states only that the table keeps its length; what a withdrawal does is stated by Billing.CheckoutStock.
- bills/models.py is not part of this model, so no bound on a bill's total digits is stated.
- cart/models.py is not part of this model. No constraint on a cart line's quantity is known, and `add_item` is modelled without a sign check, as written.
- Registration.FieldsValid states the serializer's field validators as the model declares them: required, length, uniqueness, age at least 18, role choices. It does not check email syntax, and it does not trim whitespace.
- BillViews.GenerateBill: exceptions from `generate_pdf` or from `send_bill_email.delay` are not modelled. Both run inside the `@transaction.atomic` block, so in the source such an exception undoes the bill, the stock change and the cart emptying, and the request fails with a server error. The model takes the PDF as given and always commits a checkout that passed.
- Carts.AddedSpec: the order of a cart's lines is an assumption of the model. cart/models.py is not part of this model, and `cart.items.all()` has no `order_by`. The model takes creation order, so a new line goes last. Billing.FirstShortLine, which decides whose name the stock error carries, depends on that order.
- `EmailTaken` stands for the `IntegrityError` the unique email index raises. The source does not catch it, so the request fails with a server error and no message of the application's own.
- Timestamps (`created_at`, `updated_at`) and product descriptions carry no logic and are left out, except that `description` is kept as a field.
- The generic create, update and delete of `ProductViewSet` are framework code. The product constraints they enforce are in `Products.Violations`, and their permission is `Permissions.IsEmployeeOrReadOnly`.
- `create_user` sets no age check. `MinValueValidator(18)` runs only in form and serializer validation, so the check appears only in Registration.FieldsValid.
